/**
 * The paged validator of node/core/src/blocktree.rs: it stores only the pages it
 * holds, packed into one compact vector, and takes the committed leaves of the
 * others from the block's witness. On a growth-free chain it follows a full node.
 */
module PagedValidator {
  import opened Wrappers
  import opened Int64
  import opened Aggregation
  import opened Merkle
  import opened Machine
  import opened TreeIndex
  import Engine = BlockTree

  // ---- the compact vector ----

  /** The offset of page n in the compact vector. */
  function BaseOf(spans: seq<Span>, held: set<nat>, n: nat): nat
    requires n <= |spans| && forall p :: 0 <= p < |spans| ==> spans[p].start <= spans[p].end
  {
    if n == 0 then 0
    else BaseOf(spans, held, n - 1) + if n - 1 in held then spans[n - 1].end - spans[n - 1].start else 0
  }

  /** The held slices of w among the first n pages, concatenated in page order. */
  function Compact(w: seq<int64>, spans: seq<Span>, held: set<nat>, n: nat): (c: seq<int64>)
    requires n <= |spans| && Within(spans, |w|)
    ensures |c| == BaseOf(spans, held, n)
  {
    if n == 0 then [] else Compact(w, spans, held, n - 1) + if n - 1 in held then Slice(w, spans[n - 1]) else []
  }

  ghost predicate HoldsBases(bases: seq<Option<nat>>, spans: seq<Span>, held: set<nat>, n: nat)
    requires n <= |spans| && forall p :: 0 <= p < |spans| ==> spans[p].start <= spans[p].end
  {
    && |bases| == n
    && forall p :: 0 <= p < n ==> bases[p] == if p in held then Some(BaseOf(spans, held, p)) else None
  }

  lemma {:induction false} CompactSlice(w: seq<int64>, spans: seq<Span>, held: set<nat>, n: nat, pid: nat)
    requires pid < n <= |spans| && Within(spans, |w|) && pid in held
    ensures var base, s := BaseOf(spans, held, pid), spans[pid];
      && base + (s.end - s.start) <= BaseOf(spans, held, n)
      && Compact(w, spans, held, n)[base..base + (s.end - s.start)] == Slice(w, s)
  {
    if pid < n - 1 { CompactSlice(w, spans, held, n - 1, pid); }
  }

  lemma {:induction false} CompactAgree(w: seq<int64>, v: seq<int64>, spans: seq<Span>, held: set<nat>, n: nat)
    requires n <= |spans| && Within(spans, |w|) && |v| == |w|
    requires forall pid :: 0 <= pid < n && pid in held ==> Slice(w, spans[pid]) == Slice(v, spans[pid])
    ensures Compact(w, spans, held, n) == Compact(v, spans, held, n)
  {
    if n > 0 { CompactAgree(w, v, spans, held, n - 1); }
  }

  lemma {:induction false} SliceElsewhere(w: seq<int64>, s: Span, i: nat, v: int64)
    requires s.start <= s.end <= |w| && i < |w| && !s.Has(i)
    ensures Slice(w[i := v], s) == Slice(w, s)
  {
  }

  lemma {:induction false} SliceHere(w: seq<int64>, s: Span, i: nat, v: int64)
    requires s.end <= |w| && s.Has(i)
    ensures Slice(w[i := v], s) == Slice(w, s)[i - s.start := v]
  {
  }

  /** Writing one held coordinate moves one compact cell. */
  lemma {:induction false} CompactUpdate(
    w: seq<int64>, spans: seq<Span>, held: set<nat>, n: nat, pid: nat, i: nat, v: int64)
    requires pid < n <= |spans| && Within(spans, |w|) && Fits(spans, |w|) && pid in held && spans[pid].Has(i)
    ensures BaseOf(spans, held, pid) + (i - spans[pid].start) < BaseOf(spans, held, n)
    ensures Compact(w[i := v], spans, held, n)
      == Compact(w, spans, held, n)[BaseOf(spans, held, pid) + (i - spans[pid].start) := v]
  {
    if pid < n - 1 {
      CompactUpdate(w, spans, held, n - 1, pid, i, v);
      SliceElsewhere(w, spans[n - 1], i, v);
    } else {
      CompactAgreeBelow(w, spans, held, pid, i, v);
      SliceHere(w, spans[pid], i, v);
    }
  }

  lemma {:induction false} CompactAgreeBelow(
    w: seq<int64>, spans: seq<Span>, held: set<nat>, pid: nat, i: nat, v: int64)
    requires pid < |spans| && Within(spans, |w|) && Fits(spans, |w|) && spans[pid].Has(i)
    ensures Compact(w[i := v], spans, held, pid) == Compact(w, spans, held, pid)
  {
    forall p | 0 <= p < pid ensures Slice(w[i := v], spans[p]) == Slice(w, spans[p]) {
      SliceElsewhere(w, spans[p], i, v);
    }
    CompactAgree(w[i := v], w, spans, held, pid);
  }

  /** Pages appended behind the packed ones change neither offsets nor packed values. */
  lemma {:induction false} CompactExtends(
    w: seq<int64>, tail: seq<int64>, spans: seq<Span>, more: seq<Span>, held: set<nat>, n: nat)
    requires n <= |spans| && Within(spans, |w|) && Within(spans + more, |w + tail|)
    ensures BaseOf(spans + more, held, n) == BaseOf(spans, held, n)
    ensures Compact(w + tail, spans + more, held, n) == Compact(w, spans, held, n)
    ensures forall p :: 0 <= p < n ==> BaseOf(spans + more, held, p) == BaseOf(spans, held, p)
  {
    if n > 0 {
      CompactExtends(w, tail, spans, more, held, n - 1);
      assert (spans + more)[n - 1] == spans[n - 1];
      assert Slice(w + tail, spans[n - 1]) == Slice(w, spans[n - 1]);
    }
  }

  // ---- leaves from held pages and the witness ----

  /** The global coordinate at compact position j of a page packed at base. */
  function Global(s: Span, base: nat, j: nat): int { s.start + (j - base) }

  /** The coordinates of a page re-keyed to compact positions. */
  function Rekeyed(agg: Sparse, s: Span, base: nat): Sparse {
    map j: nat | base <= j < base + s.end && s.start <= Global(s, base, j) < s.end && Global(s, base, j) in agg ::
      agg[Global(s, base, j)]
  }

  lemma {:induction false} RekeyedSlice(w: seq<int64>, c: seq<int64>, agg: Sparse, s: Span, base: nat)
    requires s.start <= s.end <= |w| && base + (s.end - s.start) <= |c|
    requires c[base..base + (s.end - s.start)] == Slice(w, s)
    ensures Apply(c, Rekeyed(agg, s, base))[base..base + (s.end - s.start)] == Slice(Apply(w, agg), s)
  {
    var sub, len := Rekeyed(agg, s, base), s.end - s.start;
    var packed, page := Apply(c, sub)[base..base + len], Slice(Apply(w, agg), s);
    forall k | 0 <= k < len ensures packed[k] == page[k] {
      assert c[base..base + len][k] == Slice(w, s)[k];
      assert Global(s, base, base + k) == s.start + k;
      assert packed[k] == Moved(c, sub, base + k) && page[k] == Moved(w, agg, s.start + k);
    }
  }

  /** Held pages recomputed, touched unheld pages from the vouched, the rest unchanged. */
  ghost function PagedLeaves(
    leaves: seq<Digest>, w: seq<int64>, spans: seq<Span>, held: set<nat>, agg: Sparse, vouched: seq<Digest>)
    : (ls: seq<Digest>)
    requires |leaves| == |spans| == |vouched| && Within(spans, |w|)
    ensures |ls| == |spans|
  {
    seq(|spans|, p requires 0 <= p < |spans| =>
      if p in held then Leaf(Slice(Apply(w, agg), spans[p]))
      else if Engine.Touches(agg, spans[p]) then vouched[p] else leaves[p])
  }

  /** The witness tells the truth about the pages this node cannot recompute. */
  ghost predicate TrueWitness(w: seq<int64>, spans: seq<Span>, held: set<nat>, agg: Sparse, vouched: seq<Digest>)
    requires Within(spans, |w|)
  {
    && |vouched| == |spans|
    && forall p :: 0 <= p < |spans| && p !in held && Engine.Touches(agg, spans[p]) ==>
         vouched[p] == Leaf(Slice(Apply(w, agg), spans[p]))
  }

  /** With a true witness the paged leaves are the full node's. */
  lemma {:induction false} TrueWitnessLeaves(
    leaves: seq<Digest>, w: seq<int64>, spans: seq<Span>, held: set<nat>, agg: Sparse, vouched: seq<Digest>)
    requires Within(spans, |w|) && leaves == Leaves(w, spans) && TrueWitness(w, spans, held, agg, vouched)
    ensures PagedLeaves(leaves, w, spans, held, agg, vouched) == Engine.Renewed(leaves, w, spans, agg, [])
  {
    var ls, all := PagedLeaves(leaves, w, spans, held, agg, vouched), Engine.Renewed(leaves, w, spans, agg, []);
    assert LeafHashes([]) == [];
    forall p | 0 <= p < |spans| ensures ls[p] == all[p] {
      if !Engine.Touches(agg, spans[p]) { Engine.UntouchedSlice(w, agg, spans[p]); }
    }
  }

  /** w is before with the aggregate added everywhere but on the coordinates still to do. */
  ghost predicate Bumped(w: seq<int64>, before: seq<int64>, d: Sparse, todo: set<nat>) {
    && |w| == |before|
    && forall i :: 0 <= i < |w| ==> w[i] == if i in todo then before[i] else Moved(before, d, i)
  }

  /** olds holds the old value of every coordinate already done. */
  ghost predicate Saved(olds: Sparse, before: seq<int64>, d: Sparse, todo: set<nat>) {
    olds.Keys == d.Keys - todo && forall i :: i in olds ==> i < |before| && olds[i] == before[i]
  }

  lemma {:induction false} BumpedStep(
    w: seq<int64>, before: seq<int64>, d: Sparse, olds: Sparse, todo: set<nat>, i: nat)
    requires Bumped(w, before, d, todo) && Saved(olds, before, d, todo) && i in todo && todo <= d.Keys && i < |w|
    ensures Bumped(w[i := Add(w[i], d[i])], before, d, todo - {i})
    ensures Saved(olds[i := w[i]], before, d, todo - {i})
  {
  }

  lemma {:induction false} BumpedAll(w: seq<int64>, before: seq<int64>, d: Sparse, olds: Sparse)
    requires Bumped(w, before, d, {}) && Saved(olds, before, d, {})
    ensures w == Apply(before, d) && olds == Olds(before, d)
  {
  }

  /** canon holds the held slices of full among the pages with an offset entry. */
  ghost predicate Packs(
    mc: Machine, m: Model, full: seq<int64>, held: set<nat>, canon: seq<int64>,
    bases: seq<Option<nat>>, leaves: seq<Digest>)
  {
    && mc.Valid() && mc.good(m) && |full| == mc.Dim(m)
    && Within(mc.spans(m), |full|) && Fits(mc.spans(m), |full|) && mc.spans(m) != []
    && |bases| <= |mc.spans(m)| == |leaves| && canon == Compact(full, mc.spans(m), held, |bases|)
    && HoldsBases(bases, mc.spans(m), held, |bases|)
  }

  /** After the held coordinates moved, appending a block's grown pages keeps everything packed. */
  lemma {:induction false} GrowPacks(
    mc: Machine, m: Model, b: Block, w: seq<int64>, held: set<nat>, canon: seq<int64>, bases: seq<Option<nat>>,
    leaves: seq<Digest>, ls: seq<Digest>)
    requires |w| == mc.Dim(m) && Packs(mc, m, Apply(w, mc.agg(b, m)), held, canon, bases, leaves)
    requires |ls| == |mc.spans(m)| + |mc.tails(b, m)|
    ensures Packs(mc, mc.post(b, m), mc.Step(w, m, b), held, canon, bases, ls)
    ensures |mc.spans(mc.post(b, m))| == |mc.spans(m)| + |mc.tails(b, m)|
  {
    var moved, spans, pages := Apply(w, mc.agg(b, m)), mc.spans(m), mc.tails(b, m);
    StepLength(mc, w, m, b);
    Inside(mc, mc.post(b, m));
    CompactExtends(moved, Flat(pages), spans, NewSpans(mc.Dim(m), pages), held, |bases|);
  }

  class PagedNode {
    const mc: Machine
    const genesisHash: Hash
    const held: set<nat>
    var blocks: map<Hash, Entry>
    var records: map<Hash, Record>
    var head: Hash
    var canon: seq<int64>
    var leaves: seq<Digest>
    var pageBase: seq<Option<nat>>
    /** The full vector of the head, which this node does not store. */
    ghost var full: seq<int64>

    /** The head's page table. */
    function Table(): seq<Span>
      requires head in blocks
      reads this
    {
      mc.spans(blocks[head].model)
    }

    /** The compact vector is the held slices of the full vector. */
    ghost predicate Valid()
      reads this
    {
      head in blocks && Packs(mc, blocks[head].model, full, held, canon, pageBase, leaves)
    }

    /** Every page of the table has its offset entry; growth ends this. */
    ghost predicate Ready()
      requires head in blocks
      reads this
    {
      |pageBase| == |Table()|
    }

    /** new_paged: pack the held pages (the backbone always) of the genesis vector. */
    constructor (mc: Machine, header: Header, model: Model, ledger: Opaque, w: seq<int64>, pages: set<nat>)
      requires mc.Valid() && mc.good(model) && |w| == mc.Dim(model)
      ensures Valid() && Ready() && fresh(this) && this.mc == mc && held == pages + {0} && genesisHash == header.hash
      ensures head == header.hash && blocks == map[header.hash := Entry(header, ledger, model, 0)]
      ensures full == w && leaves == Leaves(w, mc.spans(model))
    {
      this.mc := mc;
      genesisHash := header.hash;
      held := pages + {0};
      blocks := map[header.hash := Entry(header, ledger, model, 0)];
      records := map[];
      head := header.hash;
      full := w;
      new;
      Inside(mc, model);
      var spans := mc.spans(model);
      leaves := Engine.BlockTree.PageLeaves(w, spans);
      canon, pageBase := Pack(w, spans, held);
    }

    static method Pack(w: seq<int64>, spans: seq<Span>, held: set<nat>) returns (c: seq<int64>, bases: seq<Option<nat>>)
      requires Within(spans, |w|)
      ensures c == Compact(w, spans, held, |spans|) && HoldsBases(bases, spans, held, |spans|)
    {
      c, bases := [], [];
      for p := 0 to |spans|
        invariant c == Compact(w, spans, held, p) && HoldsBases(bases, spans, held, p)
      {
        if p in held {
          bases := bases + [Some(|c|)];
          c := c + Slice(w, spans[p]);
        } else {
          bases := bases + [None];
        }
      }
    }

    /** The leaf of a held page from the compact vector. */
    method HeldLeaf(pid: nat, agg: Sparse) returns (leaf: Digest)
      requires Valid() && Ready() && pid < |Table()| && pid in held
      ensures leaf == Leaf(Slice(Apply(full, agg), Table()[pid]))
    {
      var s, base := Table()[pid], pageBase[pid].value;
      CompactSlice(full, Table(), held, |Table()|, pid);
      RekeyedSlice(full, canon, agg, s, base);
      leaf := Engine.LeafWithSubs(canon, base, base + (s.end - s.start), Rekeyed(agg, s, base));
    }

    method NewLeaves(agg: Sparse, vouched: seq<Digest>) returns (ls: seq<Digest>)
      requires Valid() && Ready() && |vouched| == |Table()|
      ensures ls == PagedLeaves(leaves, full, Table(), held, agg, vouched)
    {
      ls := leaves;
      ghost var goal := PagedLeaves(leaves, full, Table(), held, agg, vouched);
      for pid := 0 to |Table()|
        invariant |ls| == |goal| && forall q :: 0 <= q < |ls| ==> ls[q] == if q < pid then goal[q] else leaves[q]
      {
        if pageBase[pid].Some? {
          var leaf := HeldLeaf(pid, agg);
          ls := ls[pid := leaf];
        } else if Engine.Touches(agg, Table()[pid]) {
          ls := ls[pid := vouched[pid]];
        }
      }
    }

    /** Add the aggregate to the held coordinates of the compact vector. */
    method CommitHeld(agg: Sparse) returns (heldAgg: Sparse, olds: Sparse)
      requires Valid() && Ready() && forall i :: i in agg ==> i < |full|
      modifies this`canon, this`full
      ensures Valid() && full == Apply(old(full), agg)
      ensures heldAgg == map i | i in agg && PageOf(Table(), i) in held && PageOf(Table(), i) < |Table()| :: agg[i]
      ensures olds == Olds(old(full), heldAgg)
    {
      var spans := Table();
      heldAgg := map i | i in agg && PageOf(spans, i) in held && PageOf(spans, i) < |spans| :: agg[i];
      olds := BumpAll(heldAgg, spans, full);
      HeldIsEnough(agg, heldAgg);
      full := Apply(full, agg);
    }

    /** Every coordinate of a held aggregate. */
    method BumpAll(heldAgg: Sparse, spans: seq<Span>, ghost before: seq<int64>) returns (olds: Sparse)
      requires Within(spans, |before|) && Fits(spans, |before|)
      requires HoldsBases(pageBase, spans, held, |spans|) && canon == Compact(before, spans, held, |spans|)
      requires forall i :: i in heldAgg ==> i < |before| && PageOf(spans, i) < |spans| && PageOf(spans, i) in held
      modifies this`canon
      ensures canon == Compact(Apply(before, heldAgg), spans, held, |spans|) && olds == Olds(before, heldAgg)
    {
      olds := map[];
      ghost var w := before;
      var todo := heldAgg.Keys;
      while todo != {}
        invariant todo <= heldAgg.Keys && |w| == |before|
        invariant Bumped(w, before, heldAgg, todo) && Saved(olds, before, heldAgg, todo)
        invariant canon == Compact(w, spans, held, |spans|)
        decreases todo
      {
        var i :| i in todo;
        var was;
        BumpedStep(w, before, heldAgg, olds, todo, i);
        was, w := BumpHeld(i, heldAgg[i], spans, w);
        olds := olds[i := was];
        todo := todo - {i};
      }
      BumpedAll(w, before, heldAgg, olds);
    }

    /** One held coordinate: its compact cell gets the increment. */
    method BumpHeld(i: nat, v: int64, spans: seq<Span>, ghost w: seq<int64>) returns (was: int64, ghost w': seq<int64>)
      requires Within(spans, |w|) && Fits(spans, |w|) && i < |w|
      requires HoldsBases(pageBase, spans, held, |spans|) && canon == Compact(w, spans, held, |spans|)
      requires PageOf(spans, i) < |spans| && PageOf(spans, i) in held
      modifies this`canon
      ensures was == w[i] && w' == w[i := Add(w[i], v)] && canon == Compact(w', spans, held, |spans|)
    {
      var pid := PageOf(spans, i);
      var ci := pageBase[pid].value + (i - spans[pid].start);
      CompactUpdate(w, spans, held, |spans|, pid, i, Add(w[i], v));
      CompactSlice(w, spans, held, |spans|, pid);
      CompactCell(w, spans, held, pid, i);
      was := canon[ci];
      canon := canon[ci := Add(was, v)];
      w' := w[i := Add(w[i], v)];
    }

    static lemma {:induction false} CompactCell(w: seq<int64>, spans: seq<Span>, held: set<nat>, pid: nat, i: nat)
      requires pid < |spans| && Within(spans, |w|) && pid in held && spans[pid].Has(i)
      ensures var ci := BaseOf(spans, held, pid) + (i - spans[pid].start);
        ci < BaseOf(spans, held, |spans|) && Compact(w, spans, held, |spans|)[ci] == w[i]
    {
      CompactSlice(w, spans, held, |spans|, pid);
      var base, s, c := BaseOf(spans, held, pid), spans[pid], Compact(w, spans, held, |spans|);
      assert c[base..base + (s.end - s.start)][i - s.start] == Slice(w, s)[i - s.start];
    }

    /** Dropping the unheld coordinates of the aggregate changes no held page. */
    lemma {:induction false} HeldIsEnough(agg: Sparse, heldAgg: Sparse)
      requires head in blocks && Within(Table(), |full|) && Fits(Table(), |full|)
      requires heldAgg == map i | i in agg && PageOf(Table(), i) in held && PageOf(Table(), i) < |Table()| :: agg[i]
      ensures Compact(Apply(full, heldAgg), Table(), held, |Table()|)
        == Compact(Apply(full, agg), Table(), held, |Table()|)
    {
      var spans := Table();
      forall pid | 0 <= pid < |spans| && pid in held
        ensures Slice(Apply(full, heldAgg), spans[pid]) == Slice(Apply(full, agg), spans[pid])
      {
        forall i | spans[pid].start <= i < spans[pid].end ensures Moved(full, heldAgg, i) == Moved(full, agg, i) {
          PageOfUnique(spans, |full|, pid, i);
        }
      }
      CompactAgree(Apply(full, heldAgg), Apply(full, agg), spans, held, |spans|);
    }

    /**
     * connect_extend_paged. The node checks no delta bodies; it accepts exactly
     * when the weight-free rules pass and its leaves fold to the committed root.
     * A block that grows pages is accepted too, but the offsets are not extended.
     */
    method Connect(b: Block, vouched: seq<Digest>) returns (ok: bool)
      requires Valid() && Ready() && b.header.prevHash == head && b.header.hash !in blocks
      modifies this
      ensures Valid()
      ensures ok <==> old(Checks(b, vouched))
      ensures !ok ==> canon == old(canon) && leaves == old(leaves) && head == old(head) && Ready()
      ensures !ok ==> blocks == old(blocks) && full == old(full) && records == old(records)
      ensures ok ==>
        && head == b.header.hash && full == mc.Step(old(full), old(blocks)[old(head)].model, b)
        && leaves == old(LeavesAfter(b, vouched))
        && blocks == old(blocks)[head := EntryOn(mc, b, old(blocks)[old(head)], old(RulesPass(b)).value)]
        && (Ready() <==> mc.tails(b, old(blocks)[old(head)].model) == [])
    {
      var led, ls := Check(b, vouched);
      if led.None? { return false; }
      Adopt(b, led.value, ls);
      return true;
    }

    /** Validate without changing anything. */
    method Check(b: Block, vouched: seq<Digest>) returns (led: Option<Opaque>, ls: seq<Digest>)
      requires Valid() && Ready()
      ensures led.Some? <==> Checks(b, vouched)
      ensures led.Some? ==> led == RulesPass(b) && ls == LeavesAfter(b, vouched)
    {
      led, ls := None, [];
      var p := blocks[head];
      if |vouched| != |Table()| { return; }
      var jurors := Engine.RecentProposers(blocks, genesisHash, head);
      var post := mc.Inner(b, p.header.height, p.ledger, jurors, p.model);
      if post.None? { return; }
      ls := NewLeaves(mc.agg(b, p.model), vouched);
      ls := ls + LeafHashes(mc.tails(b, p.model));
      var root := RootFromHashes(ls);
      if root == b.header.stateRoot { led := post; }
    }

    /** Commit: held coordinates move, the checked leaves are adopted, the record holds held coordinates only. */
    method Adopt(b: Block, led: Opaque, ls: seq<Digest>)
      requires Valid() && Ready() && b.header.hash !in blocks
      requires |ls| == |Table()| + |mc.tails(b, blocks[head].model)|
      modifies this
      ensures Valid() && head == b.header.hash && leaves == ls
      ensures full == mc.Step(old(full), old(blocks)[old(head)].model, b)
      ensures blocks == old(blocks)[head := EntryOn(mc, b, old(blocks)[old(head)], led)]
      ensures Ready() <==> mc.tails(b, old(blocks)[old(head)].model) == []
    {
      var p := blocks[head];
      ghost var w := full;
      StepLength(mc, w, p.model, b);
      var heldAgg, olds := CommitHeld(mc.agg(b, p.model));
      GrowPacks(mc, p.model, b, w, held, canon, pageBase, leaves, ls);
      leaves := ls;
      records := records[b.header.hash := Record(heldAgg, olds, [])];
      full := mc.Step(w, p.model, b);
      blocks := blocks[b.header.hash := Entry(b.header, led, mc.post(b, p.model), SatAdd(p.work, WorkOf(b.header)))];
      head := b.header.hash;
    }

    /** The leaves this node would adopt. */
    ghost function LeavesAfter(b: Block, vouched: seq<Digest>): (ls: seq<Digest>)
      requires Valid() && |vouched| == |Table()|
      reads this
      ensures |ls| == |Table()| + |mc.tails(b, blocks[head].model)|
    {
      PagedLeaves(leaves, full, Table(), held, mc.agg(b, blocks[head].model), vouched)
      + LeafHashes(mc.tails(b, blocks[head].model))
    }

    ghost predicate Checks(b: Block, vouched: seq<Digest>)
      requires Valid()
      reads this
    {
      |vouched| == |Table()| && RulesPass(b).Some? && Root(LeavesAfter(b, vouched)) == b.header.stateRoot
    }

    ghost function RulesPass(b: Block): Option<Opaque>
      requires head in blocks
      reads this
    {
      mc.Inner(b, blocks[head].header.height, blocks[head].ledger, Jurors(blocks, genesisHash, head, PROPOSER_LOOKBACK),
               blocks[head].model)
    }
  }

  // ---- following a full node ----

  /** The paged node stands for the same chain as the full node. */
  ghost predicate Matches(node: Engine.BlockTree, paged: PagedNode)
    reads node, paged
  {
    && node.Valid() && paged.Valid() && paged.Ready()
    && CacheOk(node.mc, node.leaves, node.canon, node.blocks[node.head].model)
    && node.mc == paged.mc && node.genesisHash == paged.genesisHash
    && node.blocks == paged.blocks && node.head == paged.head
    && paged.full == node.canon && paged.leaves == node.leaves
  }

  /** What a match means for the stored vectors. */
  lemma {:induction false} MatchedVectors(node: Engine.BlockTree, paged: PagedNode)
    requires Matches(node, paged)
    ensures var spans := node.mc.spans(node.blocks[node.head].model);
      Within(spans, |node.canon|) && paged.canon == Compact(node.canon, spans, paged.held, |spans|)
  {
  }

  /** With a true witness the paged node would adopt the leaves the full node would. */
  lemma {:induction false} SameLeaves(node: Engine.BlockTree, paged: PagedNode, b: Block, vouched: seq<Digest>)
    requires Matches(node, paged) && b.header.prevHash == node.head
    requires paged.mc.tails(b, paged.blocks[paged.head].model) == []
    requires TrueWitness(
      paged.full, paged.Table(), paged.held, paged.mc.agg(b, paged.blocks[paged.head].model), vouched)
    ensures |vouched| == |paged.Table()|
    ensures paged.LeavesAfter(b, vouched)
      == Engine.Renewed(node.leaves, node.canon, paged.Table(), paged.mc.agg(b, paged.blocks[paged.head].model), [])
  {
    assert LeafHashes([]) == [];
    TrueWitnessLeaves(
      paged.leaves, paged.full, paged.Table(), paged.held, paged.mc.agg(b, paged.blocks[paged.head].model), vouched);
  }

  /** Both nodes apply the same acceptance test to a head-extending block, body rules aside. */
  lemma {:induction false} SameVerdict(node: Engine.BlockTree, paged: PagedNode, b: Block, vouched: seq<Digest>)
    requires Matches(node, paged) && b.header.prevHash == node.head
    requires paged.mc.tails(b, paged.blocks[paged.head].model) == []
    requires TrueWitness(
      paged.full, paged.Table(), paged.held, paged.mc.agg(b, paged.blocks[paged.head].model), vouched)
    ensures |vouched| == |paged.Table()|
    ensures DenseAccepts(node.mc, node.genesisHash, node.View(), b) <==>
      (paged.mc.bodies(b, paged.blocks[paged.head].model) && paged.Checks(b, vouched))
    ensures Engine.Stages(node.mc, node.genesisHash, node.View(), b, node.leaves)
      <==> DenseAccepts(node.mc, node.genesisHash, node.View(), b)
  {
    SameLeaves(node, paged, b, vouched);
    Engine.TrueCacheSuffices(node.mc, node.genesisHash, node.View(), b, node.leaves);
  }

  /** What the full node's maps hold after adopting a head-extending block. */
  lemma {:induction false} AttachedEntry(mc: Machine, g: Hash, t: Index, b: Block, u: Index)
    requires Domains(g, t) && b.header.prevHash in t.blocks && Attached(mc, g, t, b, u)
    ensures var p := t.blocks[b.header.prevHash];
      var led := mc.Inner(b, p.header.height, p.ledger, JurorsOf(g, t, b.header.prevHash), p.model);
      led.Some? && u.blocks == t.blocks[b.header.hash := EntryOn(mc, b, p, led.value)]
    ensures b.header.hash in u.state
      && u.state[b.header.hash] == mc.Step(t.state[b.header.prevHash], t.blocks[b.header.prevHash].model, b)
  {
    var led :| AttachedWith(mc, g, t, b, led, u);
  }

  lemma {:induction false} CachedLeaves(node: Engine.BlockTree)
    requires node.Valid() && CacheOk(node.mc, node.leaves, node.canon, node.blocks[node.head].model)
    ensures node.head in node.blocks && Within(node.mc.spans(node.blocks[node.head].model), |node.canon|)
    ensures node.leaves == Leaves(node.canon, node.mc.spans(node.blocks[node.head].model))
  {
    Inside(node.mc, node.blocks[node.head].model);
  }

  /** The leaves the paged node adopts are those of the post-state. */
  lemma {:induction false} AdoptedLeaves(node: Engine.BlockTree, paged: PagedNode, b: Block, vouched: seq<Digest>)
    requires Matches(node, paged) && b.header.prevHash == node.head
    requires paged.mc.tails(b, paged.blocks[paged.head].model) == []
    requires TrueWitness(
      paged.full, paged.Table(), paged.held, paged.mc.agg(b, paged.blocks[paged.head].model), vouched)
    ensures |vouched| == |paged.Table()|
    ensures var m := node.blocks[node.head].model; var w := node.mc.Step(node.canon, m, b);
      Within(node.mc.spans(node.mc.post(b, m)), |w|)
      && paged.LeavesAfter(b, vouched) == Leaves(w, node.mc.spans(node.mc.post(b, m)))
  {
    SameLeaves(node, paged, b, vouched);
    RenewedIsPost(node, b);
  }

  lemma {:induction false} RenewedIsPost(node: Engine.BlockTree, b: Block)
    requires node.Valid() && CacheOk(node.mc, node.leaves, node.canon, node.blocks[node.head].model)
    requires node.mc.tails(b, node.blocks[node.head].model) == []
    ensures var m := node.blocks[node.head].model; var w := node.mc.Step(node.canon, m, b);
      && Within(node.mc.spans(m), |node.canon|) && |node.leaves| == |node.mc.spans(m)|
      && Within(node.mc.spans(node.mc.post(b, m)), |w|)
      && Engine.Renewed(node.leaves, node.canon, node.mc.spans(m), node.mc.agg(b, m), [])
         == Leaves(w, node.mc.spans(node.mc.post(b, m)))
  {
    Engine.RenewedIsPostState(node.mc, node.leaves, node.canon, node.blocks[node.head].model, b);
    Inside(node.mc, node.mc.post(b, node.blocks[node.head].model));
  }

  /**
   * One block through both nodes, the witness being true: on a block with
   * well-formed bodies they give the same verdict, and whenever they agree they
   * hold the same head, the same leaves and matching vectors afterwards.
   */
  method Lockstep(node: Engine.BlockTree, paged: PagedNode, b: Block, vouched: seq<Digest>)
    returns (r: Engine.Outcome, ok: bool)
    requires Matches(node, paged) && b.header.prevHash == node.head && b.header.hash !in node.blocks
    requires paged.mc.tails(b, paged.blocks[paged.head].model) == []
    requires TrueWitness(
      paged.full, paged.Table(), paged.held, paged.mc.agg(b, paged.blocks[paged.head].model), vouched)
    modifies node, paged
    ensures r.Adopted? ==> ok
    ensures ok && !r.Adopted? ==> !old(node.mc.bodies(b, node.blocks[node.head].model))
    ensures ok == r.Adopted? ==> Matches(node, paged)
    ensures r.Adopted? ==> node.head == b.header.hash
  {
    ghost var t := node.View();
    SameVerdict(node, paged, b, vouched);
    AdoptedLeaves(node, paged, b, vouched);
    r := node.ConnectExtend(b, t);
    ok := paged.Connect(b, vouched);
    if r.Adopted? {
      AttachedEntry(node.mc, node.genesisHash, t, b, node.View());
      Engine.HonestIsDense(node.mc, node.genesisHash, t, b, node.View());
      Engine.CacheIsHonesty(node.mc, node.genesisHash, node.View(), node.head, node.canon, node.leaves);
      CachedLeaves(node);
    }
  }

  /** Feed the paged node what the full node adopts: it never refuses. */
  method Follow(node: Engine.BlockTree, paged: PagedNode, b: Block, vouched: seq<Digest>) returns (r: Engine.Outcome)
    requires Matches(node, paged) && b.header.prevHash == node.head && b.header.hash !in node.blocks
    requires paged.mc.tails(b, paged.blocks[paged.head].model) == []
    requires TrueWitness(
      paged.full, paged.Table(), paged.held, paged.mc.agg(b, paged.blocks[paged.head].model), vouched)
    modifies node, paged
    ensures Matches(node, paged) && (r.Adopted? || r.Rejected?)
    ensures r.Rejected? ==> node.head == old(node.head) && node.canon == old(node.canon) && Refuses(node, b)
    ensures r.Adopted? ==>
      && node.head == b.header.hash
      && node.canon == node.mc.Step(old(node.canon), old(node.blocks)[old(node.head)].model, b)
      && node.blocks[node.head].model == node.mc.post(b, old(node.blocks)[old(node.head)].model)
  {
    ghost var t := node.View();
    SameVerdict(node, paged, b, vouched);
    AdoptedLeaves(node, paged, b, vouched);
    r := node.ConnectExtend(b, t);
    if r.Adopted? {
      AttachedEntry(node.mc, node.genesisHash, t, b, node.View());
      Engine.HonestIsDense(node.mc, node.genesisHash, t, b, node.View());
      Engine.CacheIsHonesty(node.mc, node.genesisHash, node.View(), node.head, node.canon, node.leaves);
      CachedLeaves(node);
      var ok := paged.Connect(b, vouched);
      assert ok;
    }
  }

  /** Block i of the chain grows nothing and its witness is true of the replayed state before it. */
  ghost predicate Witnessed(
    mc: Machine, held: set<nat>, w: seq<int64>, m: Model, chain: seq<Block>, vouched: seq<seq<Digest>>, i: nat)
    requires i < |chain| == |vouched|
  {
    var w', m' := Replay(mc, w, m, chain[..i]), ReplayModel(mc, m, chain[..i]);
    && mc.tails(chain[i], m') == [] && Within(mc.spans(m'), |w'|)
    && TrueWitness(w', mc.spans(m'), held, mc.agg(chain[i], m'), vouched[i])
  }

  /** Every block from i on is witnessed. */
  ghost predicate WitnessedFrom(
    mc: Machine, held: set<nat>, w: seq<int64>, m: Model, chain: seq<Block>, vouched: seq<seq<Digest>>, i: nat)
    requires i <= |chain| == |vouched|
    decreases |chain| - i
  {
    i < |chain| ==>
      Witnessed(mc, held, w, m, chain, vouched, i) && WitnessedFrom(mc, held, w, m, chain, vouched, i + 1)
  }

  /** The head once blocks i to n of the chain were adopted. */
  ghost function HeadAfter(head: Hash, chain: seq<Block>, i: nat, n: nat): Hash
    requires i <= n <= |chain|
    decreases n - i
  {
    if i == n then head else HeadAfter(chain[i].header.hash, chain, i + 1, n)
  }

  /** The full node has no use for b as its next block. */
  ghost predicate Refuses(node: Engine.BlockTree, b: Block)
    requires node.Valid()
    reads node
  {
    b.header.prevHash != node.head || b.header.hash in node.blocks
    || !DenseAccepts(node.mc, node.genesisHash, node.View(), b)
  }

  /**
   * A whole growth-free chain: the paged node accepts block after block until
   * the full node itself refuses one; both then have the same head and leaves,
   * and the compact vector is the held slices of the replayed one.
   */
  method FollowChain(node: Engine.BlockTree, paged: PagedNode, chain: seq<Block>, vouched: seq<seq<Digest>>)
    returns (n: nat)
    requires Matches(node, paged) && |vouched| == |chain|
    requires WitnessedFrom(node.mc, paged.held, node.canon, node.blocks[node.head].model, chain, vouched, 0)
    modifies node, paged
    ensures Matches(node, paged) && n <= |chain| && (n < |chain| ==> Refuses(node, chain[n]))
    ensures node.canon == Replay(node.mc, old(node.canon), old(node.blocks)[old(node.head)].model, chain[..n])
    ensures node.head == HeadAfter(old(node.head), chain, 0, n)
    ensures var spans := node.mc.spans(node.blocks[node.head].model);
      Within(spans, |node.canon|) && paged.canon == Compact(node.canon, spans, paged.held, |spans|)
  {
    assert chain[..0] == [];
    n := FollowFrom(node, paged, chain, vouched, 0, node.canon, node.blocks[node.head].model);
    MatchedVectors(node, paged);
  }

  /** The rest of the chain from block i on. */
  method FollowFrom(
    node: Engine.BlockTree, paged: PagedNode, chain: seq<Block>, vouched: seq<seq<Digest>>, i: nat,
    ghost w: seq<int64>, ghost m: Model)
    returns (n: nat)
    requires Matches(node, paged) && i <= |chain| == |vouched|
    requires node.canon == Replay(node.mc, w, m, chain[..i])
    requires node.blocks[node.head].model == ReplayModel(node.mc, m, chain[..i])
    requires WitnessedFrom(node.mc, paged.held, w, m, chain, vouched, i)
    modifies node, paged
    ensures Matches(node, paged) && i <= n <= |chain| && (n < |chain| ==> Refuses(node, chain[n]))
    ensures node.canon == Replay(node.mc, w, m, chain[..n])
    ensures node.head == HeadAfter(old(node.head), chain, i, n)
    decreases |chain| - i
  {
    n := i;
    if i < |chain| {
      var adopted := FollowAt(node, paged, chain, vouched, i, w, m);
      if adopted { n := FollowFrom(node, paged, chain, vouched, i + 1, w, m); }
    }
  }

  /** Block n of the chain, both nodes standing at the replay of the blocks before it. */
  method FollowAt(
    node: Engine.BlockTree, paged: PagedNode, chain: seq<Block>, vouched: seq<seq<Digest>>, n: nat,
    ghost w: seq<int64>, ghost m: Model)
    returns (adopted: bool)
    requires Matches(node, paged) && n < |chain| == |vouched|
    requires node.canon == Replay(node.mc, w, m, chain[..n])
    requires node.blocks[node.head].model == ReplayModel(node.mc, m, chain[..n])
    requires Witnessed(node.mc, paged.held, w, m, chain, vouched, n)
    modifies node, paged
    ensures Matches(node, paged)
    ensures !adopted ==> node.head == old(node.head) && node.canon == old(node.canon) && Refuses(node, chain[n])
    ensures adopted ==>
      && node.head == chain[n].header.hash && node.canon == Replay(node.mc, w, m, chain[..n + 1])
      && node.blocks[node.head].model == ReplayModel(node.mc, m, chain[..n + 1])
  {
    ReplayNext(node.mc, w, m, chain, n);
    if chain[n].header.prevHash != node.head || chain[n].header.hash in node.blocks { return false; }
    var r := Follow(node, paged, chain[n], vouched[n]);
    adopted := r.Adopted?;
  }

  lemma {:induction false} ReplayNext(mc: Machine, w: seq<int64>, m: Model, chain: seq<Block>, n: nat)
    requires n < |chain|
    ensures Replay(mc, w, m, chain[..n + 1])
      == mc.Step(Replay(mc, w, m, chain[..n]), ReplayModel(mc, m, chain[..n]), chain[n])
    ensures ReplayModel(mc, m, chain[..n + 1]) == mc.post(chain[n], ReplayModel(mc, m, chain[..n]))
  {
    assert chain[..n + 1][..n] == chain[..n] && chain[..n + 1][n] == chain[n];
  }

  /** Nodes booted from one genesis match, whichever pages the paged one holds. */
  method Boot(mc: Machine, header: Header, model: Model, ledger: Opaque, w: seq<int64>, pages: set<nat>)
    returns (node: Engine.BlockTree, paged: PagedNode)
    requires mc.Valid() && mc.good(model) && |w| == mc.Dim(model) && header.height == 0
    requires mc.spans(model) != [] && Within(mc.spans(model), |w|)
    requires header.stateRoot == Root(Leaves(w, mc.spans(model)))
    ensures Matches(node, paged) && node.canon == w && node.head == header.hash && paged.held == pages + {0}
  {
    node := new Engine.BlockTree(mc, header, model, ledger, w);
    paged := new PagedNode(mc, header, model, ledger, w, pages);
  }
}
