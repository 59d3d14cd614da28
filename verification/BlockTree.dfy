/**
 * The incremental state engine of node/core/src/blocktree.rs: one weight vector
 * mutated in place, sparse reversible records, a page-leaf cache, side branches
 * and reorgs, held to the dense replay of the head's ancestry.
 */
module BlockTree {
  import opened Wrappers
  import opened Int64
  import opened Aggregation
  import opened Merkle
  import opened Machine
  import opened TreeIndex
  import opened TreeWalks
  import opened AncestryLaw

  // ---- state_root_with: leaves of the post-state without materialising it ----

  /** Some aggregate coordinate falls in the span. */
  predicate Touches(agg: Sparse, s: Span) { exists i :: i in agg && s.Has(i) }

  /** The leaves a block implies: touched pages rehashed with the aggregate substituted, grown pages appended. */
  ghost function Renewed(
    leaves: seq<Digest>, w: seq<int64>, spans: seq<Span>, agg: Sparse, pages: seq<seq<int64>>): (ls: seq<Digest>)
    requires |leaves| == |spans| && Within(spans, |w|)
    ensures |ls| == |spans| + |pages|
  {
    seq(|spans|, p requires 0 <= p < |spans| =>
      if Touches(agg, spans[p]) then Leaf(Slice(Apply(w, agg), spans[p])) else leaves[p])
    + LeafHashes(pages)
  }

  lemma {:induction false} SliceRight(a: seq<int64>, b: seq<int64>, i: nat, j: nat)
    requires i <= j <= |b|
    ensures (a + b)[|a| + i..|a| + j] == b[i..j]
  {
  }

  /** A span of the rest is a span of the whole, further on. */
  lemma {:induction false} SpanShift(a: seq<int64>, b: seq<int64>, off: nat, s: Span, x: seq<int64>)
    requires off + |a| <= s.start <= s.end <= off + |a| + |b|
    requires b[s.start - off - |a|..s.end - off - |a|] == x
    ensures (a + b)[s.start - off..s.end - off] == x
  {
    SliceRight(a, b, s.start - off - |a|, s.end - off - |a|);
  }

  lemma {:induction false} LaterSpan(off: nat, pages: seq<seq<int64>>, k: nat)
    requires 0 < k < |pages|
    ensures NewSpans(off, pages)[k] == NewSpans(off + |pages[0]|, pages[1..])[k - 1]
  {
  }

  lemma {:induction false} FirstSlice(off: nat, pages: seq<seq<int64>>)
    requires pages != []
    ensures NewSpans(off, pages)[0] == Span(off, off + |pages[0]|)
    ensures |pages[0]| <= |Flat(pages)| && Flat(pages)[..|pages[0]|] == pages[0]
  {
  }

  lemma {:induction false} FlatSlice(off: nat, pages: seq<seq<int64>>, k: nat, flat: seq<int64>, s: Span)
    requires k < |pages| && flat == Flat(pages) && s == NewSpans(off, pages)[k]
    ensures off <= s.start <= s.end <= off + |flat| && flat[s.start - off..s.end - off] == pages[k]
    decreases |pages|
  {
    if k == 0 {
      FirstSlice(off, pages);
    } else {
      LaterSpan(off, pages, k);
      FlatSlice(off + |pages[0]|, pages[1..], k - 1, Flat(pages[1..]), s);
      SpanShift(pages[0], Flat(pages[1..]), off, s, pages[k]);
    }
  }

  lemma {:induction false} UntouchedSlice(w: seq<int64>, agg: Sparse, s: Span)
    requires s.start <= s.end <= |w| && !Touches(agg, s)
    ensures Slice(Apply(w, agg), s) == Slice(w, s)
  {
    forall i | s.start <= i < s.end ensures Apply(w, agg)[i] == w[i] { assert s.Has(i); }
  }

  lemma {:induction false} OldPage(mc: Machine, leaves: seq<Digest>, w: seq<int64>, m: Model, b: Block, p: nat)
    requires mc.Valid() && mc.good(m) && |w| == mc.Dim(m) && CacheOk(mc, leaves, w, m) && p < |mc.spans(m)|
    ensures Within(mc.spans(m), |w|) && |leaves| == |mc.spans(m)|
    ensures |w| <= |mc.Step(w, m, b)|
    ensures Renewed(leaves, w, mc.spans(m), mc.agg(b, m), mc.tails(b, m))[p]
      == Leaf(Slice(mc.Step(w, m, b), mc.spans(m)[p]))
  {
    Inside(mc, m);
    var s, agg := mc.spans(m)[p], mc.agg(b, m);
    assert Slice(mc.Step(w, m, b), s) == Slice(Apply(w, agg), s);
    if !Touches(agg, s) { UntouchedSlice(w, agg, s); }
  }

  lemma {:induction false} GrownPage(w: seq<int64>, pages: seq<seq<int64>>, post: seq<int64>, k: nat)
    requires k < |pages| && |post| == |w| + |Flat(pages)| && post[|w|..] == Flat(pages)
    ensures var s := NewSpans(|w|, pages)[k];
      s.start <= s.end <= |post| && Slice(post, s) == pages[k]
  {
    var s := NewSpans(|w|, pages)[k];
    FlatSlice(|w|, pages, k, Flat(pages), s);
    assert post == post[..|w|] + Flat(pages);
    SliceRight(post[..|w|], Flat(pages), s.start - |w|, s.end - |w|);
  }

  lemma {:induction false} RenewedLeaf(
    mc: Machine, leaves: seq<Digest>, w: seq<int64>, m: Model, b: Block, p: nat, ls: seq<Digest>, all: seq<Span>,
    post: seq<int64>)
    requires mc.Valid() && mc.good(m) && |w| == mc.Dim(m) && CacheOk(mc, leaves, w, m)
    requires |leaves| == |mc.spans(m)| && Within(mc.spans(m), |w|)
    requires ls == Renewed(leaves, w, mc.spans(m), mc.agg(b, m), mc.tails(b, m)) && post == mc.Step(w, m, b)
    requires all == mc.spans(m) + NewSpans(|w|, mc.tails(b, m)) && p < |all| == |ls|
    ensures all[p].start <= all[p].end <= |post| && ls[p] == Leaf(Slice(post, all[p]))
  {
    var spans, pages := mc.spans(m), mc.tails(b, m);
    if p < |spans| {
      OldPage(mc, leaves, w, m, b, p);
    } else {
      GrownPage(w, pages, post, p - |spans|);
    }
  }

  /** Hashing only touched pages gives the leaves of the materialised post-state. */
  lemma {:induction false} RenewedIsPostState(mc: Machine, leaves: seq<Digest>, w: seq<int64>, m: Model, b: Block)
    requires mc.Valid() && mc.good(m) && |w| == mc.Dim(m) && CacheOk(mc, leaves, w, m)
    ensures |mc.Step(w, m, b)| == mc.Dim(mc.post(b, m)) && mc.good(mc.post(b, m))
    ensures Within(mc.spans(m), |w|) && |leaves| == |mc.spans(m)|
    ensures CacheOk(mc, Renewed(leaves, w, mc.spans(m), mc.agg(b, m), mc.tails(b, m)),
                    mc.Step(w, m, b), mc.post(b, m))
  {
    StepLength(mc, w, m, b);
    Inside(mc, m);
    Inside(mc, mc.post(b, m));
    var ls := Renewed(leaves, w, mc.spans(m), mc.agg(b, m), mc.tails(b, m));
    var all, post := mc.spans(mc.post(b, m)), mc.Step(w, m, b);
    forall p | 0 <= p < |all| ensures ls[p] == Leaf(Slice(post, all[p])) {
      RenewedLeaf(mc, leaves, w, m, b, p, ls, all, post);
    }
    assert ls == Leaves(post, all);
  }

  /** leaf_with_subs: one page of w with the aggregate substituted, streamed coordinate by coordinate. */
  method LeafWithSubs(w: seq<int64>, start: nat, end: nat, subs: Sparse) returns (leaf: Digest)
    requires start <= end <= |w|
    ensures leaf == Leaf(Apply(w, subs)[start..end])
  {
    var buf: seq<int64> := [];
    ghost var post := Apply(w, subs);
    for i := start to end
      invariant |buf| == i - start && forall j :: start <= j < i ==> buf[j - start] == post[j]
    {
      buf := buf + [Moved(w, subs, i)];
    }
    assert buf == post[start..end];
    leaf := Leaf(buf);
  }

  /** Proposers of the last PROPOSER_LOOKBACK blocks ending at tip. */
  method RecentProposers(blocks: map<Hash, Entry>, genesisHash: Hash, tip: Hash) returns (out: set<string>)
    ensures out == Jurors(blocks, genesisHash, tip, PROPOSER_LOOKBACK)
  {
    out := {};
    var cur := tip;
    for k := 0 to PROPOSER_LOOKBACK
      invariant out + Jurors(blocks, genesisHash, cur, PROPOSER_LOOKBACK - k)
        == Jurors(blocks, genesisHash, tip, PROPOSER_LOOKBACK)
    {
      if cur == genesisHash || cur !in blocks { break; }
      out := out + {blocks[cur].header.proposer};
      cur := blocks[cur].header.prevHash;
    }
  }

  datatype Reject = Orphan | BeyondUndoWindow | Invalid
  datatype Outcome = Adopted | Parked | Known | Rejected(reason: Reject)
  datatype Staged = Staged(agg: Sparse, pages: seq<seq<int64>>, leaves: seq<Digest>, led: Opaque, post: Model)

  /** n, with that much work, is at least as good a head as any block of t: more work, then the smaller id. */
  ghost predicate Heaviest(t: Index, n: Hash, work: nat) {
    forall h :: h in t.blocks ==> work > t.blocks[h].work || (work == t.blocks[h].work && n <= h)
  }

  /** Page hashes, none of them the placeholder. */
  ghost predicate Leafy(leaves: seq<Digest>) { forall p :: 0 <= p < |leaves| ==> leaves[p] != Zero }

  /** The block's committed root is the root of its own dense state. */
  ghost predicate Honest(mc: Machine, g: Hash, t: Index, h: Hash)
    requires Sound(mc, g, t) && h in t.blocks
  {
    Inside(mc, t.blocks[h].model);
    Root(Leaves(t.state[h], mc.spans(t.blocks[h].model))) == t.blocks[h].header.stateRoot
  }

  /**
   * canon is the dense state of the head; the cache folds to the head's
   * committed root, so it describes canon exactly when the head is honest
   * (CacheIsHonesty); the head is the heaviest block unless its work has saturated.
   */
  ghost predicate Consistent(mc: Machine, g: Hash, t: Index, head: Hash, canon: seq<int64>, leaves: seq<Digest>)
  {
    && Sound(mc, g, t)
    && head in t.blocks && canon == t.state[head] && t.blocks[g].work == 0
    && |leaves| == |mc.spans(t.blocks[head].model)| > 0 && Leafy(leaves)
    && Root(leaves) == t.blocks[head].header.stateRoot
    && (t.blocks[head].work < U64_MAX ==> Heaviest(t, head, t.blocks[head].work))
  }

  /** The cache describes the head's vector if and only if the head's committed root is true. */
  lemma {:induction false} CacheIsHonesty(
    mc: Machine, g: Hash, t: Index, head: Hash, canon: seq<int64>, leaves: seq<Digest>)
    requires Consistent(mc, g, t, head, canon, leaves)
    ensures CacheOk(mc, leaves, canon, t.blocks[head].model) <==> Honest(mc, g, t, head)
  {
    Inside(mc, t.blocks[head].model);
    var truth := Leaves(canon, mc.spans(t.blocks[head].model));
    if Root(leaves) == Root(truth) { RootInjective(leaves, truth); }
  }

  // ---- when a block is staged, and when that is dense validation ----

  /** The weight-free rules and the body rules pass. */
  ghost predicate RulesPass(mc: Machine, g: Hash, t: Index, b: Block)
    requires b.header.prevHash in t.blocks
  {
    var p := t.blocks[b.header.prevHash];
    && mc.bodies(b, p.model)
    && mc.Inner(b, p.header.height, p.ledger, JurorsOf(g, t, b.header.prevHash), p.model).Some?
  }

  /** validate_at_base with cache ls at the parent accepts b. */
  ghost predicate Stages(mc: Machine, g: Hash, t: Index, b: Block, ls: seq<Digest>)
    requires Sound(mc, g, t) && b.header.prevHash in t.blocks
    requires |ls| == |mc.spans(t.blocks[b.header.prevHash].model)|
  {
    var m, w := t.blocks[b.header.prevHash].model, t.state[b.header.prevHash];
    Inside(mc, m);
    && RulesPass(mc, g, t, b)
    && Root(Renewed(ls, w, mc.spans(m), mc.agg(b, m), mc.tails(b, m))) == b.header.stateRoot
  }

  /** Every cached leaf the block relies on is right: a page is touched, hence rehashed, or its leaf is true. */
  ghost predicate Suffices(mc: Machine, g: Hash, t: Index, b: Block, ls: seq<Digest>)
    requires Sound(mc, g, t) && b.header.prevHash in t.blocks
    requires |ls| == |mc.spans(t.blocks[b.header.prevHash].model)|
  {
    var m, w := t.blocks[b.header.prevHash].model, t.state[b.header.prevHash];
    Inside(mc, m);
    Covers(ls, w, mc.spans(m), mc.agg(b, m))
  }

  ghost predicate Covers(ls: seq<Digest>, w: seq<int64>, spans: seq<Span>, agg: Sparse)
    requires |ls| == |spans| && Within(spans, |w|)
  {
    forall p :: 0 <= p < |spans| ==> Touches(agg, spans[p]) || ls[p] == Leaf(Slice(w, spans[p]))
  }

  /** The renewed leaves of two caches agree exactly where the caches agree on untouched pages. */
  lemma {:induction false} RenewedAgree(
    ls: seq<Digest>, w: seq<int64>, spans: seq<Span>, agg: Sparse, pages: seq<seq<int64>>)
    requires |ls| == |spans| && Within(spans, |w|)
    ensures Renewed(ls, w, spans, agg, pages) == Renewed(Leaves(w, spans), w, spans, agg, pages)
      <==> Covers(ls, w, spans, agg)
  {
    var a, b := Renewed(ls, w, spans, agg, pages), Renewed(Leaves(w, spans), w, spans, agg, pages);
    if a == b {
      forall p | 0 <= p < |spans| ensures Touches(agg, spans[p]) || ls[p] == Leaf(Slice(w, spans[p])) {
        assert a[p] == b[p];
      }
    }
  }

  /** For any cache: the staged root is the true root exactly when the cache suffices. */
  lemma {:induction false} RootIsTrue(mc: Machine, ls: seq<Digest>, w: seq<int64>, m: Model, b: Block)
    requires mc.Valid() && mc.good(m) && |w| == mc.Dim(m) && |ls| == |mc.spans(m)| && Within(mc.spans(m), |w|)
    ensures mc.spans(m) != [] && Within(mc.spans(mc.post(b, m)), |mc.Step(w, m, b)|)
    ensures mc.spans(mc.post(b, m)) != []
    ensures (Root(Renewed(ls, w, mc.spans(m), mc.agg(b, m), mc.tails(b, m)))
             == Root(Leaves(mc.Step(w, m, b), mc.spans(mc.post(b, m)))))
      <==> Covers(ls, w, mc.spans(m), mc.agg(b, m))
  {
    var spans, agg, pages := mc.spans(m), mc.agg(b, m), mc.tails(b, m);
    StepLength(mc, w, m, b);
    Inside(mc, m);
    Inside(mc, mc.post(b, m));
    RenewedIsPostState(mc, Leaves(w, spans), w, m, b);
    RenewedAgree(ls, w, spans, agg, pages);
    var mine, truth := Renewed(ls, w, spans, agg, pages), Leaves(mc.Step(w, m, b), mc.spans(mc.post(b, m)));
    if Root(mine) == Root(truth) { RootInjective(mine, truth); }
  }

  /**
   * Staging against dense validation, for any cache at the parent: an honest
   * block is staged exactly when the cache suffices, and a staged block is
   * honest exactly when the cache sufficed.
   */
  lemma {:induction false} VerdictExact(mc: Machine, g: Hash, t: Index, b: Block, ls: seq<Digest>)
    requires Sound(mc, g, t) && b.header.prevHash in t.blocks
    requires |ls| == |mc.spans(t.blocks[b.header.prevHash].model)|
    ensures DenseAccepts(mc, g, t, b) ==> (Stages(mc, g, t, b, ls) <==> Suffices(mc, g, t, b, ls))
    ensures Stages(mc, g, t, b, ls) ==> (DenseAccepts(mc, g, t, b) <==> Suffices(mc, g, t, b, ls))
  {
    var m, w := t.blocks[b.header.prevHash].model, t.state[b.header.prevHash];
    Inside(mc, m);
    RootIsTrue(mc, ls, w, m, b);
  }

  /** A cache that describes the parent always suffices. */
  lemma {:induction false} TrueCacheSuffices(mc: Machine, g: Hash, t: Index, b: Block, ls: seq<Digest>)
    requires Sound(mc, g, t) && b.header.prevHash in t.blocks
    requires CacheOk(mc, ls, t.state[b.header.prevHash], t.blocks[b.header.prevHash].model)
    ensures |ls| == |mc.spans(t.blocks[b.header.prevHash].model)| && Suffices(mc, g, t, b, ls)
    ensures Stages(mc, g, t, b, ls) <==> DenseAccepts(mc, g, t, b)
  {
    VerdictExact(mc, g, t, b, ls);
  }

  /** From an honest head, a rewind that does not cross growth on both branches brings a cache that suffices. */
  lemma {:induction false} UncrossedSuffices(
    mc: Machine, g: Hash, t: Index, b: Block, head: Hash, canon: seq<int64>, leaves: seq<Digest>)
    requires Consistent(mc, g, t, head, canon, leaves) && Honest(mc, g, t, head) && b.header.prevHash in t.blocks
    requires Between(t.blocks, g, head, b.header.prevHash) <= t.records.Keys
    requires !BothGrew(g, t, head, b.header.prevHash)
    ensures var ls := CacheAt(mc, g, t, head, leaves, b.header.prevHash);
      Suffices(mc, g, t, b, ls) && (Stages(mc, g, t, b, ls) <==> DenseAccepts(mc, g, t, b))
  {
    CacheIsHonesty(mc, g, t, head, canon, leaves);
    CacheAtTrue(mc, g, t, head, leaves, b.header.prevHash);
    TrueCacheSuffices(mc, g, t, b, CacheAt(mc, g, t, head, leaves, b.header.prevHash));
  }

  /** The leaves a block staged on cache ls brings. */
  ghost function Staging(mc: Machine, g: Hash, t: Index, b: Block, ls: seq<Digest>): seq<Digest>
    requires Sound(mc, g, t) && b.header.prevHash in t.blocks
    requires |ls| == |mc.spans(t.blocks[b.header.prevHash].model)|
  {
    var m := t.blocks[b.header.prevHash].model;
    Inside(mc, m);
    Renewed(ls, t.state[b.header.prevHash], mc.spans(m), mc.agg(b, m), mc.tails(b, m))
  }

  /** An attached block is honest in its tree exactly when dense validation accepts it. */
  lemma {:induction false} HonestIsDense(mc: Machine, g: Hash, t: Index, b: Block, u: Index)
    requires Sound(mc, g, t) && Sound(mc, g, u) && b.header.prevHash in t.blocks && Attached(mc, g, t, b, u)
    ensures b.header.hash in u.blocks && (Honest(mc, g, u, b.header.hash) <==> DenseAccepts(mc, g, t, b))
  {
    var led :| AttachedWith(mc, g, t, b, led, u);
    StepLength(mc, t.state[b.header.prevHash], t.blocks[b.header.prevHash].model, b);
    Inside(mc, mc.post(b, t.blocks[b.header.prevHash].model));
  }

  lemma {:induction false} CacheAtLeafy(mc: Machine, g: Hash, t: Index, head: Hash, saved: seq<Digest>, target: Hash)
    requires Sound(mc, g, t) && head in t.blocks && target in t.blocks
    requires Between(t.blocks, g, head, target) <= t.records.Keys
    ensures Leafy(CacheAt(mc, g, t, head, saved, target))
  {
  }

  // ---- the invariant across commits ----

  /** A staged block as the new head. */
  lemma {:induction false} AdoptConsistent(
    mc: Machine, g: Hash, t: Index, b: Block, led: Opaque, leaves: seq<Digest>)
    requires Sound(mc, g, t) && Fresh(g, t, b) && t.blocks[g].work == 0
    requires Accepted(mc, b, t.blocks[b.header.prevHash], JurorsOf(g, t, b.header.prevHash), led)
    requires var p := t.blocks[b.header.prevHash];
      && |leaves| == |mc.spans(mc.post(b, p.model))| > 0 && Leafy(leaves) && Root(leaves) == b.header.stateRoot
      && (SatAdd(p.work, WorkOf(b.header)) < U64_MAX ==>
            Heaviest(t, b.header.hash, SatAdd(p.work, WorkOf(b.header))))
    ensures var u := Grow(mc, t, b, led);
      Consistent(mc, g, u, b.header.hash, u.state[b.header.hash], leaves)
  {
    GrowSound(mc, g, t, b, led);
  }

  /**
   * Extending the head always makes the extension the new head. It is then the
   * heaviest block, smallest id first, exactly when no block whose work has
   * saturated at the u64 limit has a smaller id.
   */
  lemma {:induction false} HeadAtTheLimit(
    mc: Machine, g: Hash, t: Index, head: Hash, canon: seq<int64>, leaves: seq<Digest>, b: Block, led: Opaque)
    requires Consistent(mc, g, t, head, canon, leaves)
    requires Fresh(g, t, b) && b.header.prevHash == head
    ensures Heaviest(Grow(mc, t, b, led), b.header.hash, SatAdd(t.blocks[head].work, WorkOf(b.header)))
      <==> forall h :: h in t.blocks && t.blocks[h].work == U64_MAX ==> b.header.hash < h
    ensures t.blocks[head].work == U64_MAX && head < b.header.hash ==>
      !Heaviest(Grow(mc, t, b, led), b.header.hash, SatAdd(t.blocks[head].work, WorkOf(b.header)))
  {
    var u := Grow(mc, t, b, led);
    forall h | h in t.blocks ensures t.blocks[h].work <= U64_MAX && u.blocks[h] == t.blocks[h] {
      if h != g { assert Linked(mc, g, t, h); }
    }
  }

  /** A parked side block leaves the head, and the way back to it, as they are. */
  lemma {:induction false} ParkConsistent(
    mc: Machine, g: Hash, t: Index, b: Block, led: Opaque, head: Hash, canon: seq<int64>, plan: Plan, common: Hash)
    requires Consistent(mc, g, t, head, canon, plan.saved) && Fresh(g, t, b)
    requires PlanOk(g, t, plan, head, b.header.prevHash, common)
    requires Accepted(mc, b, t.blocks[b.header.prevHash], JurorsOf(g, t, b.header.prevHash), led)
    requires var work := SatAdd(t.blocks[b.header.prevHash].work, WorkOf(b.header));
      work < t.blocks[head].work || (work == t.blocks[head].work && head <= b.header.hash)
    ensures var u := Grow(mc, t, b, led);
      && Consistent(mc, g, u, head, canon, plan.saved) && PlanOk(g, u, plan, head, b.header.prevHash, common)
      && b.header.prevHash in u.blocks && u.state[b.header.prevHash] == t.state[b.header.prevHash]
  {
    GrowSound(mc, g, t, b, led);
    PlanGrows(mc, g, t, b, led, plan, head, b.header.prevHash, common);
  }

  lemma {:induction false} PruneConsistent(
    mc: Machine, g: Hash, t: Index, kept: map<Hash, Record>, head: Hash, canon: seq<int64>, leaves: seq<Digest>)
    requires Consistent(mc, g, t, head, canon, leaves) && Pruned(t, t.(records := kept))
    ensures Consistent(mc, g, t.(records := kept), head, canon, leaves)
  {
    PruneSound(mc, g, t, kept);
  }

  class BlockTree {
    const mc: Machine
    const genesisHash: Hash
    var blocks: map<Hash, Entry>
    var records: map<Hash, Record>
    var head: Hash
    var canon: seq<int64>
    var leaves: seq<Digest>
    var pruneDepth: Option<nat>
    /** What the node has forgotten: bodies and dense states of the blocks it knows. */
    ghost var bodies: map<Hash, Block>
    ghost var state: map<Hash, seq<int64>>

    ghost function View(): Index
      reads this
    {
      Index(blocks, records, bodies, state)
    }

    ghost predicate Valid()
      reads this
    {
      Consistent(mc, genesisHash, View(), head, canon, leaves)
    }

    /** Nothing was forgotten, and nothing will be. */
    ghost predicate Archive()
      reads this
    {
      pruneDepth == None && records.Keys == bodies.Keys
    }

    constructor (mc: Machine, header: Header, model: Model, ledger: Opaque, w: seq<int64>)
      requires mc.Valid() && mc.good(model) && |w| == mc.Dim(model) && header.height == 0
      requires mc.spans(model) != [] && Within(mc.spans(model), |w|)
      requires header.stateRoot == Root(Leaves(w, mc.spans(model)))
      ensures Valid() && fresh(this)
      ensures this.mc == mc && genesisHash == header.hash && head == header.hash && canon == w
      ensures leaves == Leaves(w, mc.spans(model))
      ensures blocks == map[header.hash := Entry(header, ledger, model, 0)]
      ensures state == map[header.hash := w] && bodies == map[] && records == map[] && pruneDepth == None
    {
      this.mc := mc;
      genesisHash := header.hash;
      blocks := map[header.hash := Entry(header, ledger, model, 0)];
      records := map[];
      head := header.hash;
      canon := w;
      pruneDepth := None;
      bodies := map[];
      state := map[header.hash := w];
      new;
      Inside(mc, model);
      leaves := PageLeaves(w, mc.spans(model));
    }

    static method PageLeaves(w: seq<int64>, spans: seq<Span>) returns (ls: seq<Digest>)
      requires Within(spans, |w|)
      ensures ls == Leaves(w, spans)
    {
      ls := [];
      for p := 0 to |spans|
        invariant |ls| == p && forall k :: 0 <= k < p ==> ls[k] == Leaf(Slice(w, spans[k]))
      {
        ls := ls + [Leaf(Slice(w, spans[p]))];
      }
    }

    // ---- moving canon along recorded steps ----

    /** Truncate the tail, then restore the old values. */
    method ApplyUndo(r: Record)
      requires |r.tail| <= |canon|
      requires forall i :: i in r.olds ==> i < |canon| - |r.tail|
      modifies this`canon
      ensures canon == Restore(old(canon)[..|old(canon)| - |r.tail|], r.olds)
    {
      canon := canon[..|canon| - |r.tail|];
      ghost var base := canon;
      var todo := r.olds.Keys;
      while todo != {}
        invariant todo <= r.olds.Keys && |canon| == |base|
        invariant forall i :: 0 <= i < |canon| ==>
          canon[i] == if i in r.olds && i !in todo then r.olds[i] else base[i]
        decreases todo
      {
        var i :| i in todo;
        todo := todo - {i};
        canon := canon[i := r.olds[i]];
      }
    }

    /** Add the aggregate in place, then append the tail. */
    method ApplyRedo(redo: Sparse, tail: seq<int64>)
      requires forall i :: i in redo ==> i < |canon|
      modifies this`canon
      ensures canon == Apply(old(canon), redo) + tail
    {
      ghost var base := canon;
      var todo := redo.Keys;
      while todo != {}
        invariant todo <= redo.Keys && |canon| == |base|
        invariant forall i :: 0 <= i < |canon| ==>
          canon[i] == if i in redo && i !in todo then Add(base[i], redo[i]) else base[i]
        decreases todo
      {
        var i :| i in todo;
        todo := todo - {i};
        canon := canon[i := Add(canon[i], redo[i])];
      }
      assert canon == Apply(base, redo);
      canon := canon + tail;
    }

    /** Step canon back over one recorded block. */
    method UndoBlock(h: Hash, ghost t: Index)
      requires t == View() && Sound(mc, genesisHash, t) && h in t.records && canon == t.state[h]
      modifies this`canon
      ensures t.blocks[h].header.prevHash in t.blocks && canon == t.state[t.blocks[h].header.prevHash]
    {
      RecordedStep(mc, genesisHash, t, h);
      ApplyUndo(records[h]);
    }

    /** Step canon forward over one recorded block. */
    method RedoBlock(h: Hash, ghost t: Index)
      requires t == View() && Sound(mc, genesisHash, t) && h in t.records
      requires t.blocks[h].header.prevHash in t.blocks && canon == t.state[t.blocks[h].header.prevHash]
      modifies this`canon
      ensures canon == t.state[h]
    {
      RecordedStep(mc, genesisHash, t, h);
      ApplyRedo(records[h].redo, records[h].tail);
    }

    /** Undo every block of a walk, first to last. */
    method Unwind(path: seq<Hash>, ghost from: Hash, ghost end: Hash, ghost t: Index)
      requires t == View() && Sound(mc, genesisHash, t) && end in t.blocks
      requires IsWalk(t.blocks, genesisHash, path, from, end) && AllRecorded(t, path)
      requires from in t.blocks && canon == t.state[from]
      modifies this`canon
      ensures canon == t.state[end]
    {
      ghost var at := from;
      for k := 0 to |path|
        invariant at == Stop(path, end, k) && at in t.blocks && canon == t.state[at]
      {
        WalkStep(t.blocks, genesisHash, path, from, end, k);
        UndoBlock(path[k], t);
        at := Stop(path, end, k + 1);
      }
    }

    /** Re-apply every block of a walk, last to first. */
    method Rewalk(path: seq<Hash>, ghost from: Hash, ghost end: Hash, ghost t: Index)
      requires t == View() && Sound(mc, genesisHash, t) && end in t.blocks
      requires IsWalk(t.blocks, genesisHash, path, from, end) && AllRecorded(t, path)
      requires canon == t.state[end]
      modifies this`canon
      ensures from in t.blocks && canon == t.state[from]
    {
      var k := |path|;
      while k > 0
        invariant 0 <= k <= |path| && Stop(path, end, k) in t.blocks && canon == t.state[Stop(path, end, k)]
      {
        k := k - 1;
        RedoAt(path, k, from, end, t);
      }
    }

    /** One step of Rewalk. */
    method RedoAt(path: seq<Hash>, k: nat, ghost from: Hash, ghost end: Hash, ghost t: Index)
      requires t == View() && Sound(mc, genesisHash, t) && k < |path|
      requires IsWalk(t.blocks, genesisHash, path, from, end) && AllRecorded(t, path)
      requires Stop(path, end, k + 1) in t.blocks && canon == t.state[Stop(path, end, k + 1)]
      modifies this`canon
      ensures Stop(path, end, k) in t.blocks && canon == t.state[Stop(path, end, k)]
    {
      WalkStep(t.blocks, genesisHash, path, from, end, k);
      RedoBlock(path[k], t);
    }

    // ---- planning a rewind ----

    /** Every block between a and b still has its record. */
    ghost predicate Reachable(t: Index, a: Hash, b: Hash)
      requires Rooted(t.blocks, genesisHash) && a in t.blocks && b in t.blocks
    {
      Between(t.blocks, genesisHash, a, b) <= t.records.Keys
    }

    /** Every block on the head's ancestry. */
    method HeadAncestry(ghost t: Index) returns (onHead: set<Hash>)
      requires t == View() && Rooted(t.blocks, genesisHash) && head in t.blocks
      ensures onHead == Ancestors(t.blocks, genesisHash, head)
    {
      var cur := head;
      onHead := {cur};
      while cur != genesisHash
        invariant cur in t.blocks && cur in onHead
        invariant onHead + Ancestors(t.blocks, genesisHash, cur) == Ancestors(t.blocks, genesisHash, head)
        decreases t.blocks[cur].header.height
      {
        assert HasParent(t.blocks, cur);
        cur := blocks[cur].header.prevHash;
        SelfAndGenesis(t.blocks, genesisHash, cur);
        onHead := onHead + {cur};
      }
    }

    /** The target's ancestry down to the first block on the head chain. */
    method DownWalk(target: Hash, onHead: set<Hash>, ghost t: Index) returns (down: seq<Hash>, common: Hash)
      requires t == View() && Rooted(t.blocks, genesisHash) && head in t.blocks && target in t.blocks
      requires onHead == Ancestors(t.blocks, genesisHash, head)
      ensures common in onHead && common in t.blocks
      ensures IsWalk(t.blocks, genesisHash, down, target, common) && Set(down) !! onHead
    {
      SelfAndGenesis(t.blocks, genesisHash, head);
      down, common := [], target;
      while common !in onHead
        invariant common in t.blocks && IsWalk(t.blocks, genesisHash, down, target, common) && Set(down) !! onHead
        decreases t.blocks[common].header.height
      {
        assert HasParent(t.blocks, common);
        WalkExtend(t.blocks, genesisHash, down, target, common);
        assert Set(down + [common]) == Set(down) + {common};
        down := down + [common];
        common := blocks[common].header.prevHash;
      }
    }

    /** The head's ancestry down to the common ancestor. */
    method UpWalk(common: Hash, ghost t: Index) returns (up: seq<Hash>)
      requires t == View() && Rooted(t.blocks, genesisHash) && head in t.blocks
      requires common in Ancestors(t.blocks, genesisHash, head)
      ensures common in t.blocks && IsWalk(t.blocks, genesisHash, up, head, common)
    {
      var cur := head;
      up := [];
      while cur != common
        invariant cur in t.blocks && IsWalk(t.blocks, genesisHash, up, head, cur)
        invariant common in Ancestors(t.blocks, genesisHash, cur)
        decreases t.blocks[cur].header.height
      {
        assert HasParent(t.blocks, cur);
        WalkExtend(t.blocks, genesisHash, up, head, cur);
        up := up + [cur];
        cur := blocks[cur].header.prevHash;
      }
    }

    /** Every block on the path still has its record. */
    method Available(path: seq<Hash>) returns (ok: bool)
      ensures ok <==> AllRecorded(View(), path)
    {
      for k := 0 to |path|
        invariant forall j :: 0 <= j < k ==> path[j] in records
      {
        if path[k] !in records { return false; }
      }
      return true;
    }

    /** The walk of a rewind, or why there is none; nothing is changed. */
    method FindPlan(target: Hash, ghost t: Index) returns (plan: Option<Plan>, common: Hash)
      requires t == View() && Domains(genesisHash, t) && head in t.blocks
      ensures plan.Some? <==>
        target in t.blocks && Reachable(t, head, target)
      ensures plan.Some? ==>
        && PlanOk(genesisHash, t, plan.value, head, target, common) && plan.value.saved == leaves
        && Between(t.blocks, genesisHash, head, target) == Set(plan.value.up) + Set(plan.value.down)
    {
      plan, common := None, head;
      if target !in blocks { return; }
      var onHead := HeadAncestry(t);
      var down, up;
      down, common := DownWalk(target, onHead, t);
      up := UpWalk(common, t);
      PlanCovers(genesisHash, t, up, down, head, target, common);
      assert AllRecorded(t, up) <==> Set(up) <= t.records.Keys;
      assert AllRecorded(t, down) <==> Set(down) <= t.records.Keys;
      var upOk := Available(up);
      if !upOk { return; }
      var downOk := Available(down);
      if !downOk { return; }
      plan := Some(Plan(up, down, leaves));
    }

    // ---- rewinding and rolling forward ----

    /** The pages some block of the path touched, by the given table. */
    method TouchedPages(path: seq<Hash>, spans: seq<Span>) returns (touched: set<nat>)
      requires AllRecorded(View(), path)
      ensures forall p :: p in touched <==> TouchedOn(View(), path, spans, p)
    {
      touched := {};
      for k := 0 to |path|
        invariant forall j, i :: 0 <= j < k && i in records[path[j]].redo ==> PageOf(spans, i) in touched
        invariant forall p :: p in touched ==> TouchedOn(View(), path, spans, p)
      {
        var redo := records[path[k]].redo;
        touched := touched + set i | i in redo.Keys :: PageOf(spans, i);
      }
    }

    /** Rebuild the cache for canon at the target: rehash touched pages and pages past the saved cache. */
    method Rehash(plan: Plan, spans: seq<Span>, ghost t: Index)
      requires t == View() && AllRecorded(t, plan.up) && AllRecorded(t, plan.down)
      requires Within(spans, |canon|) && Fits(spans, |canon|)
      modifies this`leaves
      ensures |leaves| == |spans|
      ensures forall pid :: 0 <= pid < |leaves| ==> leaves[pid] == RehashedLeaf(t, plan, spans, canon, pid)
    {
      var up := TouchedPages(plan.up, spans);
      var down := TouchedPages(plan.down, spans);
      var touched := up + down;
      leaves := [];
      for pid := 0 to |spans|
        invariant |leaves| == pid
        invariant forall q :: 0 <= q < pid ==> leaves[q] == RehashedLeaf(t, plan, spans, canon, q)
      {
        var kept := if pid < |plan.saved| then plan.saved[pid] else Zero;
        if pid in touched || pid >= |plan.saved| || spans[pid].end > |canon| || kept == Zero {
          leaves := leaves + [Leaf(Slice(canon, spans[pid]))];
        } else {
          leaves := leaves + [kept];
        }
      }
    }

    /**
     * Move canon and the leaf cache from the head to target by recorded steps.
     * Every needed record is checked before the first mutation.
     */
    method RewindTo(target: Hash, ghost t: Index) returns (plan: Option<Plan>, common: Hash)
      requires t == View() && Valid()
      modifies this`canon, this`leaves
      ensures plan.Some? <==>
        target in t.blocks && Reachable(t, head, target)
      ensures plan.None? ==> canon == old(canon) && leaves == old(leaves)
      ensures plan.Some? ==>
        && PlanOk(genesisHash, t, plan.value, head, target, common) && plan.value.saved == old(leaves)
        && canon == t.state[target]
        && leaves == CacheAt(mc, genesisHash, t, head, plan.value.saved, target)
    {
      plan, common := FindPlan(target, t);
      if plan.None? { return; }
      Unwind(plan.value.up, head, common, t);
      Rewalk(plan.value.down, target, common, t);
      var model := blocks[target].model;
      Inside(mc, model);
      Rehash(plan.value, mc.spans(model), t);
      RehashedIsCacheAt(mc, genesisHash, t, plan.value, head, target, leaves);
    }

    /** Put canon and the leaf cache back where RewindTo found them. */
    method RollForward(plan: Plan, ghost target: Hash, ghost common: Hash, ghost t: Index)
      requires t == View() && Sound(mc, genesisHash, t) && head in t.blocks && target in t.blocks
      requires PlanOk(genesisHash, t, plan, head, target, common) && canon == t.state[target]
      modifies this`canon, this`leaves
      ensures canon == t.state[head] && leaves == plan.saved
    {
      Unwind(plan.down, target, common, t);
      Rewalk(plan.up, head, common, t);
      leaves := plan.saved;
    }

    /** The state at target, rebuilt on a copy of canon. */
    method StateAt(target: Hash, ghost t: Index) returns (w: Option<seq<int64>>)
      requires t == View() && Valid()
      ensures w.Some? <==>
        target in t.blocks && Reachable(t, head, target)
      ensures w.Some? ==> w.value == t.state[target]
    {
      var plan, common := FindPlan(target, t);
      if plan.None? { return None; }
      var v := UnwindCopy(canon, plan.value.up, head, common, t);
      v := RewalkCopy(v, plan.value.down, target, common, t);
      return Some(v);
    }

    method UnwindCopy(w: seq<int64>, path: seq<Hash>, ghost from: Hash, ghost end: Hash, ghost t: Index)
      returns (v: seq<int64>)
      requires t == View() && Sound(mc, genesisHash, t) && end in t.blocks
      requires IsWalk(t.blocks, genesisHash, path, from, end) && AllRecorded(t, path)
      requires from in t.blocks && w == t.state[from]
      ensures v == t.state[end]
    {
      v := w;
      ghost var at := from;
      for k := 0 to |path|
        invariant at == Stop(path, end, k) && at in t.blocks && v == t.state[at]
      {
        WalkStep(t.blocks, genesisHash, path, from, end, k);
        v := UndoneCopy(v, path[k], t);
        at := Stop(path, end, k + 1);
      }
    }

    method RewalkCopy(w: seq<int64>, path: seq<Hash>, ghost from: Hash, ghost end: Hash, ghost t: Index)
      returns (v: seq<int64>)
      requires t == View() && Sound(mc, genesisHash, t) && end in t.blocks
      requires IsWalk(t.blocks, genesisHash, path, from, end) && AllRecorded(t, path)
      requires w == t.state[end]
      ensures from in t.blocks && v == t.state[from]
    {
      v := w;
      ghost var at := end;
      var k := |path|;
      while k > 0
        invariant 0 <= k <= |path| && at == Stop(path, end, k) && at in t.blocks && v == t.state[at]
      {
        k := k - 1;
        var h := path[k];
        assert t.blocks[h].header.prevHash == at && h in t.records by {
          WalkStep(t.blocks, genesisHash, path, from, end, k);
        }
        v := RedoneCopy(v, h, t);
        at := h;
      }
    }

    method UndoneCopy(v: seq<int64>, h: Hash, ghost t: Index) returns (u: seq<int64>)
      requires t == View() && Sound(mc, genesisHash, t) && h in t.records && v == t.state[h]
      ensures t.blocks[h].header.prevHash in t.blocks && u == t.state[t.blocks[h].header.prevHash]
    {
      RecordedStep(mc, genesisHash, t, h);
      u := Restore(v[..|v| - |records[h].tail|], records[h].olds);
    }

    method RedoneCopy(v: seq<int64>, h: Hash, ghost t: Index) returns (u: seq<int64>)
      requires t == View() && Sound(mc, genesisHash, t) && h in t.records
      requires t.blocks[h].header.prevHash in t.blocks && v == t.state[t.blocks[h].header.prevHash]
      ensures u == t.state[h]
    {
      RecordedStep(mc, genesisHash, t, h);
      u := Apply(v, records[h].redo) + records[h].tail;
    }

    /** Run f against the state at target without copying the model; canon and the cache come back exactly. */
    method WithStateAt<R>(target: Hash, f: seq<int64> -> R, ghost t: Index) returns (r: Option<R>)
      requires t == View() && Valid()
      modifies this`canon, this`leaves
      ensures r.Some? <==>
        target in t.blocks && Reachable(t, head, target)
      ensures r.Some? ==> r.value == f(t.state[target])
      ensures Valid() && canon == old(canon) && leaves == old(leaves)
    {
      var plan, common := RewindTo(target, t);
      if plan.None? { return None; }
      r := Some(f(canon));
      RollForward(plan.value, target, common, t);
    }

    // ---- validating and connecting blocks ----

    /** The root that canon plus an aggregate plus grown pages commits, and the leaves it implies. */
    method StateRootWith(spans: seq<Span>, agg: Sparse, pages: seq<seq<int64>>)
      returns (root: Digest, ls: seq<Digest>)
      requires spans != [] && |leaves| == |spans| && Within(spans, |canon|)
      ensures ls == Renewed(leaves, canon, spans, agg, pages) && root == Root(ls)
    {
      ls := leaves;
      for p := 0 to |spans|
        invariant |ls| == |spans|
        invariant forall q :: 0 <= q < |spans| ==>
          ls[q] == if q < p && Touches(agg, spans[q]) then Leaf(Slice(Apply(canon, agg), spans[q])) else leaves[q]
      {
        if Touches(agg, spans[p]) {
          var leaf := LeafWithSubs(canon, spans[p].start, spans[p].end, agg);
          ls := ls[p := leaf];
        }
      }
      ls := ls + LeafHashes(pages);
      root := RootFromHashes(ls);
    }

    /** What validate_at_base accepts when canon and the cache sit at the parent. */
    ghost predicate Stageable(b: Block, p: Entry, jurors: set<string>)
      requires |leaves| == |mc.spans(p.model)| && Within(mc.spans(p.model), |canon|) && mc.spans(p.model) != []
      reads this
    {
      && mc.bodies(b, p.model)
      && mc.Inner(b, p.header.height, p.ledger, jurors, p.model).Some?
      && Root(Renewed(leaves, canon, mc.spans(p.model), mc.agg(b, p.model), mc.tails(b, p.model)))
         == b.header.stateRoot
    }

    /** Validate b against canon as the parent state, changing nothing. */
    method ValidateAtBase(b: Block, p: Entry, jurors: set<string>) returns (s: Option<Staged>)
      requires |leaves| == |mc.spans(p.model)| && Within(mc.spans(p.model), |canon|) && mc.spans(p.model) != []
      ensures s.Some? <==> Stageable(b, p, jurors)
      ensures s.Some? ==>
        && s.value.agg == mc.agg(b, p.model) && s.value.pages == mc.tails(b, p.model)
        && s.value.leaves == Renewed(leaves, canon, mc.spans(p.model), s.value.agg, s.value.pages)
        && s.value.post == mc.post(b, p.model)
        && Accepted(mc, b, p, jurors, s.value.led)
    {
      if !mc.bodies(b, p.model) { return None; }
      var led := mc.Inner(b, p.header.height, p.ledger, jurors, p.model);
      if led.None? { return None; }
      var agg, pages := mc.agg(b, p.model), mc.tails(b, p.model);
      var root, ls := StateRootWith(mc.spans(p.model), agg, pages);
      if root != b.header.stateRoot { return None; }
      return Some(Staged(agg, pages, ls, led.value, mc.post(b, p.model)));
    }

    /** Drop records below the undo window. */
    method PruneDeep()
      requires head in blocks
      modifies this`records
      ensures forall h :: h in records ==> h in old(records) && records[h] == old(records)[h]
      ensures pruneDepth.None? ==> records == old(records)
      ensures pruneDepth.Some? ==> forall h :: h in records <==>
        h in old(records) && h in blocks && blocks[h].header.height + pruneDepth.value >= blocks[head].header.height
    {
      if pruneDepth.None? { return; }
      var top := blocks[head].header.height;
      var floor := if top < pruneDepth.value then 0 else top - pruneDepth.value;
      records := map h | h in records && h in blocks && blocks[h].header.height >= floor :: records[h];
    }

    /** Of the known records, exactly those within the undo window of the head are kept. */
    ghost predicate Keeps(known: set<Hash>)
      reads this
    {
      forall h :: h in records <==>
        && h in known && h in blocks && head in blocks
        && (pruneDepth.Some? ==> blocks[h].header.height + pruneDepth.value >= blocks[head].header.height)
    }

    lemma {:induction false} RecordsKnown()
      requires Valid()
      ensures records.Keys <= blocks.Keys && head in blocks
    {
    }

    /** Pruning keeps everything else. */
    method Forget(ghost u: Index, ghost known: set<Hash>, ghost whole: bool)
      requires u == View() && Valid() && known == u.records.Keys
      requires whole ==> pruneDepth.None? && known == u.bodies.Keys
      modifies this`records
      ensures Valid() && Pruned(u, View()) && Keeps(known)
      ensures whole ==> Archive()
    {
      RecordsKnown();
      PruneDeep();
      PruneConsistent(mc, genesisHash, u, records, head, canon, leaves);
      assert View() == u.(records := records);
    }

    ghost predicate StagedFor(b: Block, s: Staged, t: Index)
      requires Domains(genesisHash, t) && b.header.prevHash in t.blocks
    {
      var p := t.blocks[b.header.prevHash];
      && s.agg == mc.agg(b, p.model) && s.pages == mc.tails(b, p.model) && s.post == mc.post(b, p.model)
      && Accepted(mc, b, p, JurorsOf(genesisHash, t, b.header.prevHash), s.led)
      && |s.leaves| == |mc.spans(s.post)| > 0 && Leafy(s.leaves) && Root(s.leaves) == b.header.stateRoot
    }

    /** Commit a staged block as the new head: canon moves in place, record and staged leaves are kept. */
    method CommitStaged(
      b: Block, s: Staged, work: nat, ghost t: Index, ghost u: Index, ghost known: set<Hash>, ghost whole: bool)
      requires t == View() && Sound(mc, genesisHash, t) && Fresh(genesisHash, t, b) && StagedFor(b, s, t)
      requires canon == t.state[b.header.prevHash] && u == Grow(mc, t, b, s.led)
      requires work == SatAdd(t.blocks[b.header.prevHash].work, WorkOf(b.header))
      requires (work < U64_MAX ==> Heaviest(t, b.header.hash, work)) && t.blocks[genesisHash].work == 0
      requires known == u.records.Keys && (whole ==> pruneDepth.None? && known == u.bodies.Keys)
      modifies this
      ensures Valid() && head == b.header.hash && Pruned(u, View()) && Keeps(known)
      ensures leaves == s.leaves && pruneDepth == old(pruneDepth) && (whole ==> Archive())
    {
      Enthrone(b, s, work, t, u);
      Forget(u, known, whole);
    }

    /** Adopt a staged block as the head, with nothing forgotten yet. */
    method Enthrone(b: Block, s: Staged, work: nat, ghost t: Index, ghost u: Index)
      requires t == View() && Sound(mc, genesisHash, t) && Fresh(genesisHash, t, b) && StagedFor(b, s, t)
      requires canon == t.state[b.header.prevHash] && u == Grow(mc, t, b, s.led)
      requires work == SatAdd(t.blocks[b.header.prevHash].work, WorkOf(b.header))
      requires (work < U64_MAX ==> Heaviest(t, b.header.hash, work)) && t.blocks[genesisHash].work == 0
      modifies this
      ensures Valid() && head == b.header.hash && View() == u
      ensures leaves == s.leaves && pruneDepth == old(pruneDepth)
    {
      StepLength(mc, canon, t.blocks[b.header.prevHash].model, b);
      Install(b, s, work, t);
      AdoptConsistent(mc, genesisHash, t, b, s.led, s.leaves);
    }

    /** The commit itself: record the step, apply it to canon, adopt the staged leaves and the new head. */
    method Install(b: Block, s: Staged, work: nat, ghost t: Index)
      requires t == View() && Domains(genesisHash, t) && b.header.prevHash in t.blocks && StagedFor(b, s, t)
      requires canon == t.state[b.header.prevHash] && forall i :: i in s.agg ==> i < |canon|
      requires work == SatAdd(t.blocks[b.header.prevHash].work, WorkOf(b.header))
      modifies this
      ensures View() == Grow(mc, t, b, s.led) && head == b.header.hash && leaves == s.leaves
      ensures canon == Grow(mc, t, b, s.led).state[b.header.hash] && pruneDepth == old(pruneDepth)
    {
      RecordSide(b, s, work, t);
      ApplyRedo(s.agg, Flat(s.pages));
      leaves := s.leaves;
      head := b.header.hash;
    }

    /** Record a validated side block without adopting it. */
    method RecordSide(b: Block, s: Staged, work: nat, ghost t: Index)
      requires t == View() && Domains(genesisHash, t) && b.header.prevHash in t.blocks && StagedFor(b, s, t)
      requires canon == t.state[b.header.prevHash]
      requires work == SatAdd(t.blocks[b.header.prevHash].work, WorkOf(b.header))
      modifies this`blocks, this`records, this`bodies, this`state
      ensures View() == Grow(mc, t, b, s.led)
    {
      var h := b.header.hash;
      records := records[h := Record(s.agg, Olds(canon, s.agg), Flat(s.pages))];
      blocks := blocks[h := Entry(b.header, s.led, s.post, work)];
      bodies, state := Grow(mc, t, b, s.led).bodies, Grow(mc, t, b, s.led).state;
    }

    /** What a staged block brings to the commit. */
    lemma {:induction false} StagedFacts(b: Block, s: Staged, t: Index, ls: seq<Digest>, w: seq<int64>)
      requires Sound(mc, genesisHash, t) && b.header.prevHash in t.blocks && w == t.state[b.header.prevHash]
      requires var m := t.blocks[b.header.prevHash].model;
        && |ls| == |mc.spans(m)| && Within(mc.spans(m), |w|) && Leafy(ls)
        && s.agg == mc.agg(b, m) && s.pages == mc.tails(b, m) && s.post == mc.post(b, m)
        && s.leaves == Renewed(ls, w, mc.spans(m), s.agg, s.pages)
      ensures |s.leaves| == |mc.spans(s.post)| > 0 && Leafy(s.leaves)
    {
      var m := t.blocks[b.header.prevHash].model;
      StepLength(mc, w, m, b);
      Inside(mc, s.post);
    }

    /** FAST PATH: a block that extends the head is adopted exactly when it is staged on the node's own cache. */
    method ConnectExtend(b: Block, ghost t: Index) returns (r: Outcome)
      requires t == View() && Valid() && b.header.hash !in blocks && b.header.prevHash == head
      modifies this
      ensures Valid() && (r.Adopted? || r == Rejected(Invalid))
      ensures r.Rejected? ==> View() == t && head == old(head) && canon == old(canon) && leaves == old(leaves)
      ensures r.Adopted? ==> head == b.header.hash && Attached(mc, genesisHash, t, b, View())
      ensures r.Adopted? <==> Stages(mc, genesisHash, t, b, old(leaves))
      ensures r.Adopted? ==> leaves == Staging(mc, genesisHash, t, b, old(leaves))
      ensures r.Adopted? ==> Keeps(t.records.Keys + {b.header.hash})
      ensures old(Archive()) ==> Archive()
    {
      var p := blocks[head];
      var jurors := RecentProposers(blocks, genesisHash, head);
      Inside(mc, p.model);
      var s := ValidateAtBase(b, p, jurors);
      if s.None? { return Rejected(Invalid); }
      StagedFacts(b, s.value, t, leaves, canon);
      ghost var whole := Archive();
      ghost var u, known := GrowRecords(mc, t, b, s.value.led);
      CommitStaged(b, s.value, SatAdd(p.work, WorkOf(b.header)), t, u, known, whole);
      AttachedBy(mc, genesisHash, t, b, s.value.led, View());
      return Adopted;
    }

    /** Fork choice: more work wins, ties go to the smaller id. */
    predicate Beats(work: nat, n: Hash)
      requires head in blocks
      reads this
    {
      work > blocks[head].work || (work == blocks[head].work && n < head)
    }

    /** Of two stored works and ids: the new block wins with more work, or with the same work and a smaller id. */
    ghost predicate Chosen(t: Index, b: Block, from: Hash, r: Outcome, u: Index)
      requires from in t.blocks
    {
      r.Adopted? || r.Parked? ==>
        && b.header.hash in u.blocks
        && (r.Adopted? <==>
              || u.blocks[b.header.hash].work > t.blocks[from].work
              || (u.blocks[b.header.hash].work == t.blocks[from].work && b.header.hash < from))
    }

    /** The verdict and the new cache are those of the node's cache, rewound to the block's parent. */
    ghost predicate Judged(t: Index, b: Block, from: Hash, saved: seq<Digest>, r: Outcome, after: seq<Digest>)
      requires Sound(mc, genesisHash, t) && from in t.blocks && b.header.prevHash in t.blocks
      requires Reachable(t, from, b.header.prevHash)
    {
      var ls := CacheAt(mc, genesisHash, t, from, saved, b.header.prevHash);
      && (!r.Rejected? <==> Stages(mc, genesisHash, t, b, ls))
      && (r.Adopted? ==> after == Staging(mc, genesisHash, t, b, ls))
    }

    /**
     * SLOW PATH: a block whose parent is not the head. Rewind canon to the parent,
     * validate there, then adopt it by an ordinary commit or park it and roll back.
     */
    method ConnectSide(b: Block, ghost t: Index) returns (r: Outcome)
      requires t == View() && Valid() && b.header.hash !in blocks && b.header.prevHash != head
      requires Sound(mc, genesisHash, t) && head in t.blocks
      modifies this
      ensures Valid() && !r.Known?
      ensures r.Rejected? ==> View() == t
      ensures r.Rejected? || r.Parked? ==> head == old(head) && canon == old(canon) && leaves == old(leaves)
      ensures r.Adopted? || r.Parked? ==>
        b.header.prevHash in t.blocks && Attached(mc, genesisHash, t, b, View())
      ensures r.Adopted? ==> head == b.header.hash
      ensures Chosen(t, b, old(head), r, View())
      ensures r.Adopted? || r.Parked? ==> Keeps(t.records.Keys + {b.header.hash})
      ensures r == Rejected(Orphan) <==> b.header.prevHash !in t.blocks
      ensures r == Rejected(BeyondUndoWindow) <==>
        (b.header.prevHash in t.blocks && !Reachable(t, old(head), b.header.prevHash))
      ensures (b.header.prevHash in t.blocks && Reachable(t, old(head), b.header.prevHash)) ==>
        Judged(t, b, old(head), old(leaves), r, leaves)
      ensures old(Archive()) ==> Archive()
    {
      if b.header.prevHash !in blocks { return Rejected(Orphan); }
      r := ConnectBranch(b, t);
    }

    /** The parent is known: rewind to it, if the records reach that far. */
    method ConnectBranch(b: Block, ghost t: Index) returns (r: Outcome)
      requires t == View() && Valid() && b.header.hash !in blocks && b.header.prevHash in blocks
      requires Sound(mc, genesisHash, t) && head in t.blocks
      modifies this
      ensures Valid() && !r.Known? && r != Rejected(Orphan)
      ensures r.Rejected? ==> View() == t
      ensures r.Rejected? || r.Parked? ==> head == old(head) && canon == old(canon) && leaves == old(leaves)
      ensures r.Adopted? || r.Parked? ==> Attached(mc, genesisHash, t, b, View())
      ensures r.Adopted? ==> head == b.header.hash
      ensures Chosen(t, b, old(head), r, View())
      ensures r.Adopted? || r.Parked? ==> Keeps(t.records.Keys + {b.header.hash})
      ensures r == Rejected(BeyondUndoWindow) <==> !Reachable(t, old(head), b.header.prevHash)
      ensures Reachable(t, old(head), b.header.prevHash) ==> Judged(t, b, old(head), old(leaves), r, leaves)
      ensures old(Archive()) ==> Archive()
    {
      var plan, common := Prepare(b.header.prevHash, t);
      if plan.None? { return Rejected(BeyondUndoWindow); }
      ghost var ls := leaves;
      var jurors := RecentProposers(blocks, genesisHash, b.header.prevHash);
      r := StageSide(b, blocks[b.header.prevHash], jurors, plan.value, common, t);
      JudgedBy(t, b, old(head), old(leaves), r, leaves, ls);
    }

    lemma {:induction false} JudgedBy(
      t: Index, b: Block, from: Hash, saved: seq<Digest>, r: Outcome, after: seq<Digest>, ls: seq<Digest>)
      requires Sound(mc, genesisHash, t) && from in t.blocks && b.header.prevHash in t.blocks
      requires Reachable(t, from, b.header.prevHash)
      requires ls == CacheAt(mc, genesisHash, t, from, saved, b.header.prevHash)
      requires !r.Rejected? <==> Stages(mc, genesisHash, t, b, ls)
      requires r.Adopted? ==> after == Staging(mc, genesisHash, t, b, ls)
      ensures Judged(t, b, from, saved, r, after)
    {
    }

    /** Rewind, remembering that the node can be put back. */
    method Prepare(target: Hash, ghost t: Index) returns (plan: Option<Plan>, common: Hash)
      requires t == View() && Valid() && Sound(mc, genesisHash, t) && head in t.blocks && target in t.blocks
      modifies this`canon, this`leaves
      ensures plan.Some? <==> Reachable(t, head, target)
      ensures Archive() == old(Archive())
      ensures plan.None? ==> canon == old(canon) && leaves == old(leaves)
      ensures plan.Some? ==>
        && PlanOk(genesisHash, t, plan.value, head, target, common) && plan.value.saved == old(leaves)
        && t.state[head] == old(canon) && Consistent(mc, genesisHash, t, head, t.state[head], plan.value.saved)
        && canon == t.state[target] && |leaves| == |mc.spans(t.blocks[target].model)| && Leafy(leaves)
        && leaves == CacheAt(mc, genesisHash, t, head, plan.value.saved, target)
    {
      plan, common := RewindTo(target, t);
      if plan.Some? { CacheAtLeafy(mc, genesisHash, t, head, plan.value.saved, target); }
    }

    /** Canon sits at the parent: stage the block and settle where canon ends up. */
    method StageSide(b: Block, p: Entry, jurors: set<string>, plan: Plan, ghost common: Hash, ghost t: Index)
      returns (r: Outcome)
      requires t == View() && b.header.hash !in t.blocks && b.header.prevHash in t.blocks
      requires Sound(mc, genesisHash, t) && head in t.blocks
      requires Consistent(mc, genesisHash, t, head, t.state[head], plan.saved)
      requires PlanOk(genesisHash, t, plan, head, b.header.prevHash, common)
      requires p == t.blocks[b.header.prevHash] && jurors == JurorsOf(genesisHash, t, b.header.prevHash)
      requires canon == t.state[b.header.prevHash] && |leaves| == |mc.spans(p.model)| && Leafy(leaves)
      modifies this
      ensures Valid() && !r.Known? && (r.Rejected? ==> r == Rejected(Invalid))
      ensures r.Rejected? ==> View() == t
      ensures r.Rejected? || r.Parked? ==>
        head == old(head) && canon == t.state[old(head)] && leaves == plan.saved
      ensures r.Adopted? || r.Parked? ==> Attached(mc, genesisHash, t, b, View())
      ensures r.Adopted? ==> head == b.header.hash && leaves == Staging(mc, genesisHash, t, b, old(leaves))
      ensures Chosen(t, b, old(head), r, View())
      ensures r.Adopted? || r.Parked? ==> Keeps(t.records.Keys + {b.header.hash})
      ensures !r.Rejected? <==> Stages(mc, genesisHash, t, b, old(leaves))
      ensures old(Archive()) ==> Archive()
    {
      Inside(mc, p.model);
      var s := ValidateAtBase(b, p, jurors);
      if s.None? {
        Abandon(plan, b.header.prevHash, common, t);
        return Rejected(Invalid);
      }
      StagedFacts(b, s.value, t, leaves, canon);
      r := Settle(b, s.value, SatAdd(p.work, WorkOf(b.header)), plan, common, t);
    }

    /** Nothing was committed: roll back to the state before the rewind. */
    method Abandon(plan: Plan, ghost target: Hash, ghost common: Hash, ghost t: Index)
      requires t == View() && Sound(mc, genesisHash, t) && head in t.blocks && target in t.blocks
      requires Consistent(mc, genesisHash, t, head, t.state[head], plan.saved)
      requires PlanOk(genesisHash, t, plan, head, target, common) && canon == t.state[target]
      modifies this`canon, this`leaves
      ensures Valid() && View() == t && canon == t.state[head] && leaves == plan.saved
    {
      RollForward(plan, target, common, t);
      assert View() == t;
    }

    /** Fork choice for a staged side block: adopt it or park it. */
    method Settle(b: Block, s: Staged, work: nat, plan: Plan, ghost common: Hash, ghost t: Index) returns (r: Outcome)
      requires t == View() && Fresh(genesisHash, t, b) && StagedFor(b, s, t) && head in t.blocks
      requires Sound(mc, genesisHash, t)
      requires Consistent(mc, genesisHash, t, head, t.state[head], plan.saved)
      requires PlanOk(genesisHash, t, plan, head, b.header.prevHash, common)
      requires canon == t.state[b.header.prevHash]
      requires work == SatAdd(t.blocks[b.header.prevHash].work, WorkOf(b.header))
      modifies this
      ensures Valid() && (r.Adopted? || r.Parked?) && Attached(mc, genesisHash, t, b, View())
      ensures Chosen(t, b, old(head), r, View())
      ensures r.Adopted? || r.Parked? ==> Keeps(t.records.Keys + {b.header.hash})
      ensures r.Parked? ==> head == old(head) && canon == t.state[old(head)] && leaves == plan.saved
      ensures r.Adopted? ==> head == b.header.hash && leaves == s.leaves
      ensures old(Archive()) ==> Archive()
    {
      ghost var whole := Archive();
      ghost var u, known := GrowRecords(mc, t, b, s.led);
      if Beats(work, b.header.hash) {
        CommitStaged(b, s, work, t, u, known, whole);
        AttachedBy(mc, genesisHash, t, b, s.led, View());
        return Adopted;
      }
      Park(b, s, work, plan, common, t, u, known, whole);
      AttachedBy(mc, genesisHash, t, b, s.led, View());
      return Parked;
    }

    /** Record the block fully, then put canon back at the current head. */
    method Park(
      b: Block, s: Staged, work: nat, plan: Plan, ghost common: Hash, ghost t: Index, ghost u: Index,
      ghost known: set<Hash>, ghost whole: bool)
      requires t == View() && Fresh(genesisHash, t, b) && StagedFor(b, s, t) && u == Grow(mc, t, b, s.led)
      requires head in t.blocks && Consistent(mc, genesisHash, t, head, t.state[head], plan.saved)
      requires PlanOk(genesisHash, t, plan, head, b.header.prevHash, common)
      requires canon == t.state[b.header.prevHash]
      requires work == SatAdd(t.blocks[b.header.prevHash].work, WorkOf(b.header))
      requires work < t.blocks[head].work || (work == t.blocks[head].work && head <= b.header.hash)
      requires known == u.records.Keys && (whole ==> pruneDepth.None? && known == u.bodies.Keys)
      modifies this
      ensures Valid() && Pruned(u, View()) && Keeps(known)
      ensures head == old(head) && canon == t.state[head] && leaves == plan.saved
      ensures whole ==> Archive()
    {
      RecordAndReturn(b, s, work, plan, common, t, u);
      Forget(u, known, whole);
    }

    method RecordAndReturn(
      b: Block, s: Staged, work: nat, plan: Plan, ghost common: Hash, ghost t: Index, ghost u: Index)
      requires t == View() && Fresh(genesisHash, t, b) && StagedFor(b, s, t) && u == Grow(mc, t, b, s.led)
      requires head in t.blocks && Consistent(mc, genesisHash, t, head, t.state[head], plan.saved)
      requires PlanOk(genesisHash, t, plan, head, b.header.prevHash, common)
      requires canon == t.state[b.header.prevHash]
      requires work == SatAdd(t.blocks[b.header.prevHash].work, WorkOf(b.header))
      requires work < t.blocks[head].work || (work == t.blocks[head].work && head <= b.header.hash)
      modifies this`blocks, this`records, this`bodies, this`state, this`canon, this`leaves
      ensures Valid() && View() == u && canon == t.state[head] && leaves == plan.saved
    {
      RecordSide(b, s, work, t);
      ParkConsistent(mc, genesisHash, t, b, s.led, head, t.state[head], plan, common);
      RollForward(plan, b.header.prevHash, common, u);
    }

    /** The cache a block is judged with: the node's own, rewound to the block's parent. */
    ghost function Judging(t: Index, head: Hash, leaves: seq<Digest>, b: Block): (ls: seq<Digest>)
      requires Sound(mc, genesisHash, t) && head in t.blocks && b.header.prevHash in t.blocks
      requires Reachable(t, head, b.header.prevHash)
      ensures |ls| == |mc.spans(t.blocks[b.header.prevHash].model)|
    {
      CacheAt(mc, genesisHash, t, head, leaves, b.header.prevHash)
    }

    /**
     * Validate and attach a block. A rejection or a parked side block leaves
     * canon, the leaf cache and the head untouched. An honest block is accepted
     * exactly when the cache it is judged with suffices, and an accepted block is
     * honest exactly then; after an adoption the cache describes canon if and only
     * if the new head is honest. Valid() says that canon is the dense state of the
     * head after every call.
     */
    method AddBlock(b: Block) returns (r: Outcome)
      requires Valid()
      modifies this
      ensures Valid()
      ensures r.Known? <==> b.header.hash in old(blocks)
      ensures r.Known? || r.Rejected? ==> View() == old(View())
      ensures !r.Adopted? ==> head == old(head) && canon == old(canon) && leaves == old(leaves)
      ensures r.Adopted? ==> head == b.header.hash
      ensures r.Adopted? || r.Parked? ==>
        b.header.prevHash in old(blocks) && Attached(mc, genesisHash, old(View()), b, View())
      ensures !r.Known? ==> (r == Rejected(Orphan) <==> b.header.prevHash !in old(blocks))
      ensures !r.Known? ==> (r == Rejected(BeyondUndoWindow) <==>
        (b.header.prevHash in old(blocks) && !Reachable(old(View()), old(head), b.header.prevHash)))
      ensures (!r.Known? && b.header.prevHash in old(blocks)
               && Reachable(old(View()), old(head), b.header.prevHash)) ==>
        var t := old(View()); var ls := Judging(t, old(head), old(leaves), b);
        && (DenseAccepts(mc, genesisHash, t, b) ==> (!r.Rejected? <==> Suffices(mc, genesisHash, t, b, ls)))
        && (!r.Rejected? ==> (DenseAccepts(mc, genesisHash, t, b) <==> Suffices(mc, genesisHash, t, b, ls)))
        && (!r.Rejected? <==> Stages(mc, genesisHash, t, b, ls))
      ensures r.Adopted? ==>
        (CacheOk(mc, leaves, canon, blocks[head].model) <==> DenseAccepts(mc, genesisHash, old(View()), b))
      ensures r.Adopted? || r.Parked? ==> Keeps(old(records).Keys + {b.header.hash})
      ensures old(head) in old(blocks)
      ensures b.header.prevHash == old(head) ==> !r.Parked?
      ensures b.header.prevHash != old(head) ==> Chosen(old(View()), b, old(head), r, View())
      ensures Sound(mc, genesisHash, View()) && head in blocks && Weighed(ChainTo(genesisHash, View(), head))
      ensures old(Archive()) ==> Archive()
    {
      HeadIsWeighed();
      if b.header.hash in blocks { return Known; }
      ghost var t := View();
      if b.header.prevHash == head {
        CacheAtHead(mc, genesisHash, t, head, leaves);
        VerdictExact(mc, genesisHash, t, b, leaves);
        r := ConnectExtend(b, t);
      } else {
        if b.header.prevHash in blocks && Reachable(t, head, b.header.prevHash) {
          VerdictExact(mc, genesisHash, t, b, Judging(t, head, leaves, b));
        }
        r := ConnectSide(b, t);
      }
      if r.Adopted? {
        HonestIsDense(mc, genesisHash, t, b, View());
        CacheIsHonesty(mc, genesisHash, View(), head, canon, leaves);
      }
      HeadIsWeighed();
    }

    /** Unless its sum of works has reached the u64 limit, no chain of known blocks outweighs best. */
    ghost predicate Weighed(best: seq<Block>)
      reads this
    {
      Heft(best) < 0xFFFF_FFFF_FFFF_FFFF ==> Outweighs(genesisHash, View(), best, head)
    }

    lemma {:induction false} HeadIsWeighed()
      requires Valid()
      ensures Sound(mc, genesisHash, View()) && head in blocks
      ensures Weighed(ChainTo(genesisHash, View(), head))
    {
      HeadOutweighs(mc, genesisHash, View(), head);
    }

    /** The head state, independently of the records, is the dense replay of its ancestry from genesis. */
    lemma {:induction false} CanonIsReplay()
      requires Valid()
      ensures canon == Replay(mc, state[genesisHash], blocks[genesisHash].model, ChainTo(genesisHash, View(), head))
    {
      StateIsReplay(mc, genesisHash, View(), head);
    }
  }
}
