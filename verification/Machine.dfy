/**
 * What the incremental engine needs to know about a chain: how a block moves a
 * flat weight vector. The rules themselves are function values, so everything
 * proved about the engine holds for any rules with this shape; module Sestrian
 * supplies the real ones.
 */
module Machine {
  import opened Wrappers
  import opened Int64
  import opened Aggregation
  import opened Merkle
  import ModelState

  type Hash = nat
  /** Consensus data the weight engine carries without reading. */
  type Opaque = seq<nat>
  type Model = ModelState.State

  datatype Score = Score(txid: nat, value: nat)

  /** hash is the block id; ids compare as their fixed-length hex strings do. */
  datatype Header = Header(
    hash: Hash, height: nat, prevHash: Hash, stateRoot: Digest, work: nat, proposer: string)

  datatype Block = Block(header: Header, txs: seq<Tx>, scores: seq<Score>, rest: Opaque)

  /**
   * spans: the page table; post: the fold; agg: the sparse aggregate; tails: the
   * pages growth appends; bodies: the per-transaction body rules; check: every
   * rule that does not touch weights, returning the post-ledger.
   */
  datatype Machine = Machine(
    good: Model -> bool,
    spans: Model -> seq<Span>,
    post: (Block, Model) -> Model,
    agg: (Block, Model) -> Sparse,
    tails: (Block, Model) -> seq<seq<int64>>,
    bodies: (Block, Model) -> bool,
    check: (Block, nat, Opaque, set<string>, Model) -> Option<Opaque>)
  {
    function Dim(m: Model): nat { EndOf(spans(m)) }

    ghost predicate Valid() {
      forall m: Model, b: Block {:trigger Steps(m, b)} :: good(m) ==> Steps(m, b)
    }

    /** A block keeps the table well formed, moves only existing coordinates and appends whole pages. */
    ghost predicate Steps(m: Model, b: Block) {
      && Tiled(spans(m)) && spans(m) != []
      && good(post(b, m))
      && (forall i :: i in agg(b, m) ==> i < Dim(m))
      && (forall k :: 0 <= k < |tails(b, m)| ==> tails(b, m)[k] != [])
      && spans(post(b, m)) == spans(m) + NewSpans(Dim(m), tails(b, m))
    }

    /** The state after a block: the sparse aggregate in place, then the grown pages. */
    function Step(w: seq<int64>, m: Model, b: Block): seq<int64> {
      Apply(w, agg(b, m)) + Flat(tails(b, m))
    }

    /** validate_inner without weights: the height rule, then everything else. */
    function Inner(b: Block, parentHeight: nat, ledger: Opaque, jurors: set<string>, m: Model): Option<Opaque> {
      if b.header.height != parentHeight + 1 then None else check(b, parentHeight, ledger, jurors, m)
    }
  }

  function EndOf(spans: seq<Span>): nat { if spans == [] then 0 else spans[|spans| - 1].end }

  /** Consecutive spans from coordinate zero. */
  ghost predicate Tiled(spans: seq<Span>) {
    && (spans != [] ==> spans[0].start == 0)
    && forall p :: 0 <= p < |spans| ==>
         spans[p].start <= spans[p].end && (p > 0 ==> spans[p].start == spans[p - 1].end)
  }

  lemma {:induction false} TiledBounds(spans: seq<Span>, p: nat, q: nat)
    requires Tiled(spans) && p <= q < |spans|
    ensures spans[p].start <= spans[q].start && spans[p].end <= spans[q].end <= EndOf(spans)
    ensures p < q ==> spans[p].end <= spans[q].start
    decreases |spans| - p
  {
    if p < q {
      TiledBounds(spans, p + 1, q);
    } else if q < |spans| - 1 {
      TiledBounds(spans, q + 1, |spans| - 1);
    }
  }

  lemma {:induction false} TiledFits(spans: seq<Span>)
    requires Tiled(spans)
    ensures Fits(spans, EndOf(spans))
  {
    forall p | 0 <= p < |spans| ensures spans[p].start <= spans[p].end <= EndOf(spans) {
      TiledBounds(spans, p, |spans| - 1);
    }
    forall p, q | 0 <= p < q < |spans| ensures spans[p].end <= spans[q].start { TiledBounds(spans, p, q); }
  }

  function Flat(pages: seq<seq<int64>>): seq<int64> {
    if pages == [] then [] else pages[0] + Flat(pages[1..])
  }

  /** The spans of pages appended at offset off. */
  function NewSpans(off: nat, pages: seq<seq<int64>>): (s: seq<Span>)
    ensures |s| == |pages|
    decreases |pages|
  {
    if pages == [] then [] else [Span(off, off + |pages[0]|)] + NewSpans(off + |pages[0]|, pages[1..])
  }

  lemma {:induction false} NewSpansEnd(off: nat, pages: seq<seq<int64>>)
    ensures pages != [] ==> EndOf(NewSpans(off, pages)) == off + |Flat(pages)|
    ensures pages == [] ==> Flat(pages) == []
    decreases |pages|
  {
    if |pages| > 1 { NewSpansEnd(off + |pages[0]|, pages[1..]); }
  }

  /** The step has the length of the new table. */
  lemma {:induction false} StepLength(mc: Machine, w: seq<int64>, m: Model, b: Block)
    requires mc.Valid() && mc.good(m) && |w| == mc.Dim(m)
    ensures mc.Steps(m, b) && mc.good(mc.post(b, m)) && |mc.Step(w, m, b)| == mc.Dim(mc.post(b, m))
    ensures |mc.spans(m)| <= |mc.spans(mc.post(b, m))|
    ensures Flat(mc.tails(b, m)) == [] ==> mc.spans(mc.post(b, m)) == mc.spans(m)
  {
    assert mc.Steps(m, b);
    var tails := mc.tails(b, m);
    NewSpansEnd(mc.Dim(m), tails);
    if tails != [] {
      assert tails[0] != [] && Flat(tails) == tails[0] + Flat(tails[1..]);
    } else {
      assert mc.spans(m) + [] == mc.spans(m);
    }
  }

  // ---- page leaves ----

  ghost predicate Within(spans: seq<Span>, dim: nat) {
    forall p :: 0 <= p < |spans| ==> spans[p].start <= spans[p].end <= dim
  }

  function Slice(w: seq<int64>, s: Span): seq<int64>
    requires s.start <= s.end <= |w|
  {
    w[s.start..s.end]
  }

  ghost function Leaves(w: seq<int64>, spans: seq<Span>): (ls: seq<Digest>)
    requires Within(spans, |w|)
    ensures |ls| == |spans|
  {
    seq(|spans|, p requires 0 <= p < |spans| => Leaf(Slice(w, spans[p])))
  }

  /** The leaf cache describes w under the page table of m. */
  ghost predicate CacheOk(mc: Machine, leaves: seq<Digest>, w: seq<int64>, m: Model)
    requires mc.Valid() && mc.good(m) && |w| == mc.Dim(m)
  {
    Inside(mc, m);
    leaves == Leaves(w, mc.spans(m))
  }

  lemma {:induction false} Inside(mc: Machine, m: Model)
    requires mc.Valid() && mc.good(m)
    ensures Tiled(mc.spans(m)) && mc.spans(m) != []
    ensures Within(mc.spans(m), mc.Dim(m)) && Fits(mc.spans(m), mc.Dim(m))
  {
    var b: Block := Block(Header(0, 0, 0, Zero, 0, ""), [], [], []);
    assert mc.Steps(m, b);
    TiledFits(mc.spans(m));
  }

  lemma {:induction false} TiledHas(spans: seq<Span>, i: nat, n: nat) returns (p: nat)
    requires Tiled(spans) && 0 < n <= |spans| && i < spans[n - 1].end
    ensures p < n && spans[p].start <= i < spans[p].end
  {
    p := n - 1;
    if spans[p].start > i {
      assert spans[p].start == spans[p - 1].end;
      p := TiledHas(spans, i, p);
    }
  }

  /** The state root commits every coordinate: over one table, equal roots are equal states. */
  lemma {:induction false} RootBindsState(w: seq<int64>, v: seq<int64>, spans: seq<Span>)
    requires Tiled(spans) && spans != [] && |w| == |v| == EndOf(spans)
    ensures Within(spans, |w|) && (Root(Leaves(w, spans)) == Root(Leaves(v, spans)) <==> w == v)
  {
    TiledFits(spans);
    var a, b := Leaves(w, spans), Leaves(v, spans);
    if Root(a) == Root(b) {
      RootInjective(a, b);
      forall i | 0 <= i < |w| ensures w[i] == v[i] {
        var p := TiledHas(spans, i, |spans|);
        var s := spans[p];
        assert a[p] == b[p];
        assert w[i] == w[s.start..s.end][i - s.start] && v[i] == v[s.start..s.end][i - s.start];
      }
    }
  }

  // ---- sparse records ----

  /** The values a sparse delta is about to overwrite. */
  function Olds(w: seq<int64>, d: Sparse): Sparse {
    map i | i in d && i < |w| :: w[i]
  }

  function Restore(w: seq<int64>, olds: Sparse): (u: seq<int64>)
    ensures |u| == |w|
  {
    seq(|w|, i requires 0 <= i < |w| => if i in olds then olds[i] else w[i])
  }

  /** Undo is exact: truncating the tail and restoring the old values gives back the parent state. */
  lemma {:induction false} UndoInverts(w: seq<int64>, d: Sparse, tail: seq<int64>)
    ensures Restore((Apply(w, d) + tail)[..|w|], Olds(w, d)) == w
  {
  }
}
