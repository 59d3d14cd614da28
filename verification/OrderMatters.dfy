/**
 * One set of blocks, two parent-first orders, two different trees. On the fork
 * of CrossedGrowth an engine that hears both branches before the child refuses
 * it; an engine that hears the child's branch first attaches it.
 */
module OrderMatters {
  import opened Int64
  import opened Aggregation
  import opened Merkle
  import opened Machine
  import opened ModelState
  import opened Sestrian
  import opened TreeIndex
  import opened TreeWalks
  import opened DenseTrees
  import opened EngineOrder
  import opened CrossedGrowth

  // ---- one plain move ----

  /** Only y may have grown. */
  ghost predicate GrewOnly(t: Index, y: Hash) { forall h :: Grew(t, h) ==> h == y }

  lemma {:induction false} OneGrewStraight(g: Hash, t: Index, y: Hash)
    requires Domains(g, t) && GrewOnly(t, y)
    ensures Straight(g, t)
  {
    forall x, z | x in t.blocks && z in t.blocks && Grew(t, x) && Grew(t, z) ensures OneChain(g, t, x, z) {
      SelfAndGenesis(t.blocks, g, x);
    }
  }

  /** Fed an honest block on an honest straight tree, the engine attaches it. */
  lemma {:induction false} HonestMove(mc: Machine, s: Snap, b: Block, n: Snap)
    requires Moves(mc, 0, s, b, n) && Permissive(mc) && Straight(0, s.t) && AllHonest(mc, 0, s.t)
    requires Judges(s, b) && DenseAccepts(mc, 0, s.t, b)
    ensures n.t == Grow(mc, s.t, b, []) && AllHonest(mc, 0, n.t)
  {
    JudgesDensely(mc, 0, s, b);
    TruthIsVerdict(mc, 0, s, b);
    var led := AttachedGrew(mc, 0, s.t, b, n.t);
    GrowHonest(mc, 0, s.t, b, led);
  }

  // ---- the blocks of a branch are honest ----

  /** The dense verdict on a block that moves nothing: its root is that of the parent's vector plus the pages. */
  lemma {:induction false} PlainAccepted(mc: Machine, t: Index, b: Block, pages: seq<seq<int64>>)
    requires Sound(mc, 0, t) && Permissive(mc) && b.header.prevHash in t.blocks
    requires b.header.height == t.blocks[b.header.prevHash].header.height + 1
    requires Plain(mc, t.blocks[b.header.prevHash].model, b, pages)
    requires var v := t.state[b.header.prevHash] + Flat(pages);
      var spans := mc.spans(mc.post(b, t.blocks[b.header.prevHash].model));
      Within(spans, |v|) && spans != [] && Root(Leaves(v, spans)) == b.header.stateRoot
    ensures DenseAccepts(mc, 0, t, b)
  {
    NoChange(t.state[b.header.prevHash]);
  }

  lemma {:induction false} OneLeaf(w: seq<int64>, spans: seq<Span>)
    requires w == [0] && spans == [Span(0, 1)]
    ensures Within(spans, |w|) && Root(Leaves(w, spans)) == Leaf([0])
  {
    assert Slice(w, spans[0]) == [0];
    assert Leaves(w, spans) == [Leaf([0])];
  }

  /** The page tables along a branch. */
  ghost predicate Tables(mc: Machine, m0: Model, x: Hash, page: seq<int64>) {
    && mc.spans(mc.post(B1(x), m0)) == [Span(0, 1)]
    && mc.spans(mc.post(B2(x), mc.post(B1(x), m0))) == [Span(0, 1)]
    && TwoPages(mc, TipModel(mc, m0, x, page), |page|)
  }

  lemma {:induction false} EmptyPages(w: seq<int64>)
    ensures w + Flat([]) == w
  {
    FlatOne([]);
  }

  lemma {:induction false} FirstAccepted(mc: Machine, t: Index, m0: Model, x: Hash, page: seq<int64>)
    requires Sound(mc, 0, t) && Permissive(mc) && Room(t, m0, x)
    requires Branching(mc, m0, x, page) && Tables(mc, m0, x, page)
    ensures DenseAccepts(mc, 0, t, B1(x))
  {
    EmptyPages([0]);
    OneLeaf([0], [Span(0, 1)]);
    PlainAccepted(mc, t, B1(x), []);
  }

  lemma {:induction false} SecondAccepted(mc: Machine, t: Index, m0: Model, x: Hash, page: seq<int64>)
    requires Sound(mc, 0, t) && Permissive(mc) && Branching(mc, m0, x, page) && Tables(mc, m0, x, page)
    requires Placed(t, x, 0, 1, [0], []) && t.blocks[x].model == mc.post(B1(x), m0)
    ensures DenseAccepts(mc, 0, t, B2(x))
  {
    EmptyPages([0]);
    OneLeaf([0], [Span(0, 1)]);
    PlainAccepted(mc, t, B2(x), []);
  }

  lemma {:induction false} ThirdAccepted(mc: Machine, t: Index, m0: Model, x: Hash, page: seq<int64>)
    requires Sound(mc, 0, t) && Permissive(mc) && Branching(mc, m0, x, page) && Tables(mc, m0, x, page)
    requires Placed(t, x + 1, x, 2, [0], []) && t.blocks[x + 1].model == mc.post(B2(x), mc.post(B1(x), m0))
    ensures DenseAccepts(mc, 0, t, B3(x, page))
  {
    FlatOne(page);
    TwoLeaves([0] + page, page, [Span(0, 1), Span(1, 1 + |page|)]);
    PlainAccepted(mc, t, B3(x, page), [page]);
  }

  // ---- feeding a branch ----

  lemma {:induction false} NothingGrew(mc: Machine, t: Index, b: Block, y: Hash)
    requires b.header.prevHash in t.blocks && b.header.prevHash in t.state
    requires GrewOnly(t, y) && (mc.tails(b, t.blocks[b.header.prevHash].model) == [] || b.header.hash == y)
    ensures GrewOnly(Grow(mc, t, b, []), y)
  {
    FlatOne([]);
    var u := Grow(mc, t, b, []);
    forall h | Grew(u, h) ensures h == y {
      if h != b.header.hash { assert Grew(t, h); }
    }
  }

  /** Three calls feed the branch from x. */
  ghost predicate Feeds(mc: Machine, s: Snap, x: Hash, page: seq<int64>, s1: Snap, s2: Snap, n: Snap) {
    Moves(mc, 0, s, B1(x), s1) && Moves(mc, 0, s1, B2(x), s2) && Moves(mc, 0, s2, B3(x, page), n)
  }

  /** A node on which at most one block grew attaches a whole branch. */
  ghost predicate Ready(mc: Machine, t: Index, m0: Model, x: Hash, y: Hash) {
    Sound(mc, 0, t) && AllHonest(mc, 0, t) && Room(t, m0, x) && GrewOnly(t, y)
  }

  lemma {:induction false} FirstFed(
    mc: Machine, m0: Model, s: Snap, x: Hash, page: seq<int64>, n: Snap, y: Hash)
    requires Permissive(mc) && Branching(mc, m0, x, page) && Tables(mc, m0, x, page)
    requires Moves(mc, 0, s, B1(x), n) && Ready(mc, s.t, m0, x, y)
    ensures n.t == After1(mc, s.t, m0, x) && AllHonest(mc, 0, n.t) && GrewOnly(n.t, y)
  {
    OneGrewStraight(0, s.t, y);
    FirstAccepted(mc, s.t, m0, x, page);
    HonestMove(mc, s, B1(x), n);
    NothingGrew(mc, s.t, B1(x), y);
  }

  lemma {:induction false} SecondFed(
    mc: Machine, m0: Model, t: Index, s: Snap, x: Hash, page: seq<int64>, n: Snap, y: Hash)
    requires Permissive(mc) && Branching(mc, m0, x, page) && Tables(mc, m0, x, page) && Room(t, m0, x)
    requires Moves(mc, 0, s, B2(x), n) && s.t == After1(mc, t, m0, x) && AllHonest(mc, 0, s.t) && GrewOnly(s.t, y)
    ensures n.t == After2(mc, t, m0, x) && AllHonest(mc, 0, n.t) && GrewOnly(n.t, y)
  {
    FirstFacts(mc, t, m0, x, s.t);
    OneGrewStraight(0, s.t, y);
    SecondAccepted(mc, s.t, m0, x, page);
    HonestMove(mc, s, B2(x), n);
    NothingGrew(mc, s.t, B2(x), y);
  }

  lemma {:induction false} ThirdFed(
    mc: Machine, m0: Model, t: Index, s: Snap, x: Hash, page: seq<int64>, n: Snap, y: Hash)
    requires Permissive(mc) && Branching(mc, m0, x, page) && Tables(mc, m0, x, page) && Room(t, m0, x)
    requires Moves(mc, 0, s, B3(x, page), n) && s.t == After2(mc, t, m0, x) && AllHonest(mc, 0, s.t) && GrewOnly(s.t, y)
    ensures n.t == After3(mc, t, m0, x, page) && AllHonest(mc, 0, n.t) && (x + 2 == y ==> GrewOnly(n.t, y))
  {
    SecondFacts(mc, t, m0, x, s.t);
    OneGrewStraight(0, s.t, y);
    ThirdAccepted(mc, s.t, m0, x, page);
    HonestMove(mc, s, B3(x, page), n);
    if x + 2 == y { NothingGrew(mc, s.t, B3(x, page), y); }
  }

  lemma {:induction false} BranchFed(
    mc: Machine, m0: Model, s: Snap, x: Hash, page: seq<int64>, s1: Snap, s2: Snap, n: Snap, y: Hash)
    requires Permissive(mc) && Branching(mc, m0, x, page) && Tables(mc, m0, x, page)
    requires Ready(mc, s.t, m0, x, y) && Feeds(mc, s, x, page, s1, s2, n)
    ensures n.t == After3(mc, s.t, m0, x, page) && AllHonest(mc, 0, n.t) && (x + 2 == y ==> GrewOnly(n.t, y))
  {
    FirstFed(mc, m0, s, x, page, s1, y);
    SecondFed(mc, m0, s.t, s1, x, page, s2, y);
    ThirdFed(mc, m0, s.t, s2, x, page, n, y);
  }

  // ---- the node that hears both branches first ----

  /** A node on the fork stands on block 3, with that block's leaves. */
  lemma {:induction false} StandsOnThree(mc: Machine, s: Snap, m0: Model, pa: seq<int64>, pb: seq<int64>)
    requires Standing(mc, 0, s) && Forked(mc, s.t, m0, pa, pb) && TwoPages(mc, s.t.blocks[3].model, |pa|)
    ensures s.head == 3 && s.leaves == LeavesWith(pa)
  {
    NodeOnThree(mc, s.t, m0, pa, pb);
    assert s.head == 3;
    Engine.CacheIsHonesty(mc, 0, s.t, s.head, s.canon, s.leaves);
    Engine.CacheIsHonesty(mc, 0, s.t, 3, s.t.state[3], LeavesWith(pa));
  }

  lemma {:induction false} ForkFed(
    mc: Machine, m0: Model, pa: seq<int64>, pb: seq<int64>, s: Snap, s1: Snap, s2: Snap, one: Snap,
    s4: Snap, s5: Snap, n: Snap)
    requires Permissive(mc) && s.t == Base(m0) && mc.good(m0) && mc.Dim(m0) == 1
    requires Branching(mc, m0, 1, pa) && Tables(mc, m0, 1, pa) && Branching(mc, m0, 4, pb) && Tables(mc, m0, 4, pb)
    requires Feeds(mc, s, 1, pa, s1, s2, one) && Feeds(mc, one, 4, pb, s4, s5, n) && AllHonest(mc, 0, s.t)
    ensures Forked(mc, n.t, m0, pa, pb)
    ensures TwoPages(mc, n.t.blocks[3].model, |pa|) && n.t.blocks[6].model == TipModel(mc, m0, 4, pb)
  {
    BaseSound(mc, m0);
    BranchFed(mc, m0, s, 1, pa, s1, s2, one, 3);
    FirstBranch(mc, Base(m0), m0, pa, one.t);
    BranchFed(mc, m0, one, 4, pb, s4, s5, n, 3);
    SecondBranch(mc, m0, pa, pb, one.t, n.t);
  }

  /** It refuses the child of block 6. */
  lemma {:induction false} ChildMissed(mc: Machine, s: Snap, m0: Model, pa: seq<int64>, pb: seq<int64>, n: Snap)
    requires Moves(mc, 0, s, Child(pb), n) && Permissive(mc) && Forked(mc, s.t, m0, pa, pb)
    requires pa != pb && pa != [] && pb != [] && Plain(mc, s.t.blocks[6].model, Child(pb), [])
    requires TwoPages(mc, s.t.blocks[3].model, |pa|) && TwoPages(mc, s.t.blocks[6].model, |pb|)
    ensures 7 !in n.t.blocks
  {
    StandsOnThree(mc, s, m0, pa, pb);
    ChildIsRefused(mc, s.t, m0, pa, pb);
    ChildIsNew(mc, s, m0, pa, pb);
    RefusedStays(mc, s, Child(pb), n, s.head, s.leaves);
  }

  lemma {:induction false} ChildIsNew(mc: Machine, s: Snap, m0: Model, pa: seq<int64>, pb: seq<int64>)
    requires Forked(mc, s.t, m0, pa, pb)
    ensures Judges(s, Child(pb)) && Child(pb).header.prevHash == 6 && Child(pb).header.hash == 7
  {
  }

  /** A block that does not stage on the node's cache stays out. */
  lemma {:induction false} RefusedStays(
    mc: Machine, s: Snap, b: Block, n: Snap, head: Hash, leaves: seq<Digest>)
    requires Moves(mc, 0, s, b, n) && s.head == head && s.leaves == leaves && Judges(s, b)
    requires Between(s.t.blocks, 0, head, b.header.prevHash) <= s.t.records.Keys
    requires !Engine.Stages(mc, 0, s.t, b, CacheAt(mc, 0, s.t, head, leaves, b.header.prevHash))
    ensures b.header.hash !in n.t.blocks
  {
  }

  // ---- the node that hears the child's branch first ----

  lemma {:induction false} ChildAccepted(mc: Machine, t: Index, m0: Model, page: seq<int64>)
    requires Sound(mc, 0, t) && Permissive(mc) && HasBranch(mc, t, m0, 4, page) && Tables(mc, m0, 4, page)
    requires Plain(mc, TipModel(mc, m0, 4, page), Child(page), [])
    ensures DenseAccepts(mc, 0, t, Child(page))
  {
    var m, w := t.blocks[6].model, t.state[6];
    FlatOne([]);
    EmptyPages(w);
    StepLength(mc, w, m, Child(page));
    TwoLeaves(w, page, mc.spans(m));
    PlainAccepted(mc, t, Child(page), []);
  }

  lemma {:induction false} BranchHeard(
    mc: Machine, m0: Model, x: Hash, page: seq<int64>, t: Index, s: Snap, s1: Snap, s2: Snap, one: Snap)
    requires Permissive(mc) && t == Base(m0) && s.t == t && x > 0
    requires Branching(mc, m0, x, page) && Tables(mc, m0, x, page)
    requires Feeds(mc, s, x, page, s1, s2, one) && AllHonest(mc, 0, t)
    ensures AllHonest(mc, 0, one.t) && GrewOnly(one.t, x + 2) && HasBranch(mc, one.t, m0, x, page)
    ensures x + 3 !in one.t.blocks
  {
    BaseRoom(m0, t, x, x + 2);
    BranchFed(mc, m0, s, x, page, s1, s2, one, x + 2);
    BranchPlaced(mc, m0, x, page, t, one.t);
  }

  lemma {:induction false} BranchPlaced(mc: Machine, m0: Model, x: Hash, page: seq<int64>, t: Index, u: Index)
    requires Room(t, m0, x) && Branching(mc, m0, x, page) && u == After3(mc, t, m0, x, page) && x + 3 !in t.blocks
    ensures HasBranch(mc, u, m0, x, page) && x + 3 !in u.blocks
  {
    BranchFacts(mc, t, m0, x, page, u);
    NotAdded(t, u, {x, x + 1, x + 2}, x + 3);
  }

  lemma {:induction false} BaseRoom(m0: Model, t: Index, x: Hash, y: Hash)
    requires t == Base(m0) && x > 0
    ensures Room(t, m0, x) && GrewOnly(t, y) && x + 3 !in t.blocks
  {
  }

  lemma {:induction false} NotAdded(t: Index, u: Index, hs: set<Hash>, h: Hash)
    requires Adds(t, u, hs) && h !in t.blocks && h !in hs
    ensures h !in u.blocks
  {
  }

  lemma {:induction false} ChildHeard(mc: Machine, m0: Model, page: seq<int64>, s: Snap, n: Snap)
    requires Moves(mc, 0, s, Child(page), n) && Permissive(mc) && Tables(mc, m0, 4, page)
    requires Plain(mc, TipModel(mc, m0, 4, page), Child(page), [])
    requires AllHonest(mc, 0, s.t) && GrewOnly(s.t, 6) && HasBranch(mc, s.t, m0, 4, page) && 7 !in s.t.blocks
    ensures 7 in n.t.blocks
  {
    ChildAccepted(mc, s.t, m0, page);
    OneGrewStraight(0, s.t, 6);
    HonestMove(mc, s, Child(page), n);
  }

  // ---- the two orders ----

  function Branch(x: Hash, page: seq<int64>): seq<Block> { [B1(x), B2(x), B3(x, page)] }

  /** Both branches, then the child. */
  function BothFirst(pa: seq<int64>, pb: seq<int64>): seq<Block> { Branch(1, pa) + Branch(4, pb) + [Child(pb)] }

  /** The child's branch and the child, then the other branch. */
  function ChildFirst(pa: seq<int64>, pb: seq<int64>): seq<Block> { Branch(4, pb) + [Child(pb)] + Branch(1, pa) }

  lemma {:induction false} SetOfConcat(a: seq<Block>, b: seq<Block>)
    ensures SetOf(a + b) == SetOf(a) + SetOf(b)
  {
  }

  lemma {:induction false} SameSet(pa: seq<int64>, pb: seq<int64>)
    ensures SetOf(BothFirst(pa, pb)) == SetOf(ChildFirst(pa, pb))
  {
    var a, b, c := Branch(1, pa), Branch(4, pb), [Child(pb)];
    SetOfConcat(a + b, c);
    SetOfConcat(a, b);
    SetOfConcat(b + c, a);
    SetOfConcat(b, c);
  }

  /** Each block is on genesis or on the block before it. */
  ghost predicate Chained(blocks: seq<Block>) {
    forall i {:trigger blocks[i]} :: 0 <= i < |blocks| ==>
      blocks[i].header.prevHash == 0 || (i > 0 && blocks[i - 1].header.hash == blocks[i].header.prevHash)
  }

  lemma {:induction false} ChainedParentFirst(blocks: seq<Block>)
    requires Chained(blocks)
    ensures ParentFirst(0, blocks)
  {
    forall i | 0 <= i < |blocks| && blocks[i].header.prevHash != 0
      ensures exists j :: 0 <= j < i && blocks[j].header.hash == blocks[i].header.prevHash
    {
      assert blocks[i - 1].header.hash == blocks[i].header.prevHash;
    }
  }

  lemma {:induction false} Numbered(blocks: seq<Block>)
    requires forall i :: 0 <= i < |blocks| ==> blocks[i].header.hash == i + 1
    ensures Collisionless(SetOf(blocks))
  {
    forall a, b | a in SetOf(blocks) && b in SetOf(blocks) && a.header.hash == b.header.hash ensures a == b {
      var i :| 0 <= i < |blocks| && blocks[i] == a;
      var j :| 0 <= j < |blocks| && blocks[j] == b;
    }
  }

  lemma {:induction false} ListBoth(pa: seq<int64>, pb: seq<int64>)
    ensures var xs := BothFirst(pa, pb);
      Chained(xs) && forall i :: 0 <= i < |xs| ==> xs[i].header.hash == i + 1
  {
    assert BothFirst(pa, pb) == [B1(1), B2(1), B3(1, pa), B1(4), B2(4), B3(4, pb), Child(pb)];
  }

  lemma {:induction false} ListChild(pa: seq<int64>, pb: seq<int64>)
    ensures Chained(ChildFirst(pa, pb))
  {
    assert ChildFirst(pa, pb) == [B1(4), B2(4), B3(4, pb), Child(pb), B1(1), B2(1), B3(1, pa)];
  }

  lemma {:induction false} SameBlocks(pa: seq<int64>, pb: seq<int64>)
    ensures SetOf(BothFirst(pa, pb)) == SetOf(ChildFirst(pa, pb)) && Collisionless(SetOf(BothFirst(pa, pb)))
    ensures ParentFirst(0, BothFirst(pa, pb)) && ParentFirst(0, ChildFirst(pa, pb))
  {
    SameSet(pa, pb);
    ListBoth(pa, pb);
    ListChild(pa, pb);
    Numbered(BothFirst(pa, pb));
    ChainedParentFirst(BothFirst(pa, pb));
    ChainedParentFirst(ChildFirst(pa, pb));
  }

  /** The last call of a run. */
  lemma {:induction false} LastCall(mc: Machine, log: Log, blocks: seq<Block>, b: Block)
    requires Legal(mc, 0, log) && log.Blocks() == blocks + [b]
    ensures log.Then? && log.b == b && log.before.Blocks() == blocks && Legal(mc, 0, log.before)
    ensures Moves(mc, 0, log.before.at, b, log.at) && log.before.Origin() == log.Origin()
  {
    assert log.Then?;
    assert log.Blocks()[..|blocks|] == blocks && log.Blocks()[..|blocks|] == log.before.Blocks();
    assert log.Blocks()[|blocks|] == b;
  }

  lemma {:induction false} BranchSplits(blocks: seq<Block>, x: Hash, page: seq<int64>)
    ensures blocks + Branch(x, page) == blocks + [B1(x)] + [B2(x)] + [B3(x, page)]
  {
  }

  /** The last three. */
  lemma {:induction false} LastBranch(mc: Machine, log: Log, blocks: seq<Block>, x: Hash, page: seq<int64>)
    returns (before: Log, s1: Snap, s2: Snap)
    requires Legal(mc, 0, log) && log.Blocks() == blocks + Branch(x, page)
    ensures Legal(mc, 0, before) && before.Blocks() == blocks && before.Origin() == log.Origin()
    ensures Feeds(mc, before.at, x, page, s1, s2, log.at)
  {
    BranchSplits(blocks, x, page);
    LastCall(mc, log, blocks + [B1(x)] + [B2(x)], B3(x, page));
    LastCall(mc, log.before, blocks + [B1(x)], B2(x));
    LastCall(mc, log.before.before, blocks, B1(x));
    s1, s2, before := log.before.before.at, log.before.at, log.before.before.before;
  }

  lemma {:induction false} AtStart(mc: Machine, log: Log)
    requires Legal(mc, 0, log) && log.Blocks() == []
    ensures log.at.t == log.Origin() && Sound(mc, 0, log.at.t) && AllHonest(mc, 0, log.at.t)
  {
  }

  /** What the example's rules give the two branches. */
  ghost predicate Setting(mc: Machine, m0: Model, pa: seq<int64>, pb: seq<int64>) {
    && mc.Valid() && Permissive(mc) && mc.good(m0) && mc.Dim(m0) == 1 && pa != pb && pa != [] && pb != []
    && Branching(mc, m0, 1, pa) && Tables(mc, m0, 1, pa) && Branching(mc, m0, 4, pb) && Tables(mc, m0, 4, pb)
    && Plain(mc, TipModel(mc, m0, 4, pb), Child(pb), [])
  }

  /** A whole run of one branch. */
  lemma {:induction false} OnlyBranch(mc: Machine, log: Log, x: Hash, page: seq<int64>)
    returns (s: Snap, s1: Snap, s2: Snap)
    requires Legal(mc, 0, log) && log.Blocks() == Branch(x, page)
    ensures Feeds(mc, s, x, page, s1, s2, log.at) && s.t == log.Origin() && AllHonest(mc, 0, s.t)
  {
    assert [] + Branch(x, page) == Branch(x, page);
    var start;
    start, s1, s2 := LastBranch(mc, log, [], x, page);
    AtStart(mc, start);
    s := start.at;
  }

  lemma {:induction false} BothHeard(mc: Machine, m0: Model, pa: seq<int64>, pb: seq<int64>, log: Log)
    requires Setting(mc, m0, pa, pb) && Legal(mc, 0, log) && log.Origin() == Base(m0)
    requires log.Blocks() == Branch(1, pa) + Branch(4, pb)
    ensures Forked(mc, log.at.t, m0, pa, pb)
    ensures TwoPages(mc, log.at.t.blocks[3].model, |pa|) && log.at.t.blocks[6].model == TipModel(mc, m0, 4, pb)
  {
    var one, s4, s5 := LastBranch(mc, log, Branch(1, pa), 4, pb);
    var s, s1, s2 := OnlyBranch(mc, one, 1, pa);
    ForkFed(mc, m0, pa, pb, s, s1, s2, one.at, s4, s5, log.at);
  }

  lemma {:induction false} BothFirstMisses(mc: Machine, m0: Model, pa: seq<int64>, pb: seq<int64>, log: Log)
    requires Setting(mc, m0, pa, pb) && Legal(mc, 0, log) && log.Origin() == Base(m0)
    requires log.Blocks() == BothFirst(pa, pb)
    ensures 7 !in log.at.t.blocks
  {
    LastCall(mc, log, Branch(1, pa) + Branch(4, pb), Child(pb));
    BothHeard(mc, m0, pa, pb, log.before);
    ChildMissed(mc, log.before.at, m0, pa, pb, log.at);
  }

  lemma {:induction false} ChildIsHeard(mc: Machine, m0: Model, pa: seq<int64>, pb: seq<int64>, log: Log)
    requires Setting(mc, m0, pa, pb) && Legal(mc, 0, log) && log.Origin() == Base(m0)
    requires log.Blocks() == Branch(4, pb) + [Child(pb)]
    ensures 7 in log.at.t.blocks
  {
    LastCall(mc, log, Branch(4, pb), Child(pb));
    var s, s1, s2 := OnlyBranch(mc, log.before, 4, pb);
    BranchHeard(mc, m0, 4, pb, s.t, s, s1, s2, log.before.at);
    ChildHeard(mc, m0, pb, log.before.at, log.at);
  }

  lemma {:induction false} ChildFirstHears(mc: Machine, m0: Model, pa: seq<int64>, pb: seq<int64>, log: Log)
    requires Setting(mc, m0, pa, pb) && Legal(mc, 0, log) && log.Origin() == Base(m0)
    requires log.Blocks() == ChildFirst(pa, pb)
    ensures 7 in log.at.t.blocks
  {
    var heard, s4, s5 := LastBranch(mc, log, Branch(4, pb) + [Child(pb)], 1, pa);
    ChildIsHeard(mc, m0, pa, pb, heard);
    BranchKeeps(mc, heard.at, 1, pa, s4, s5, log.at, 7);
  }

  lemma {:induction false} BranchKeeps(
    mc: Machine, s: Snap, x: Hash, page: seq<int64>, s1: Snap, s2: Snap, n: Snap, h: Hash)
    requires Feeds(mc, s, x, page, s1, s2, n) && h in s.t.blocks
    ensures h in n.t.blocks
  {
    MoveKeeps(mc, s, B1(x), s1, h);
    MoveKeeps(mc, s1, B2(x), s2, h);
    MoveKeeps(mc, s2, B3(x, page), n, h);
  }

  lemma {:induction false} MoveKeeps(mc: Machine, s: Snap, b: Block, n: Snap, h: Hash)
    requires Moves(mc, 0, s, b, n) && h in s.t.blocks
    ensures h in n.t.blocks
  {
    var fed := set k | k in s.t.bodies :: s.t.bodies[k];
    MoveCame(mc, 0, s, b, n, fed, fed + {b});
    assert Same(s.t, n.t, h);
  }

  // ---- on the protocol's own rules ----

  lemma {:induction false} ExampleTables(r: Rules, m0: Model, x: Hash)
    requires Example(r) && Bare(m0, 0, 0)
    ensures Tables(MachineOf(r), m0, x, NewPageOf(r, x))
  {
    var mc, page := MachineOf(r), NewPageOf(r, x);
    var m1 := mc.post(B1(x), m0);
    FirstBlock(r, m0, B1(x), x, 0, Leaf([0]));
    BareSpans(m1);
    SecondBlock(r, m1, B2(x), x + 1, x, Leaf([0]));
    BareSpans(mc.post(B2(x), m1));
    RulesBranch(r, m0, x);
    GrownSpans(TipModel(mc, m0, x, page), |page|);
  }

  lemma {:induction false} BareSpans(m: Model)
    requires m.pages == [CrossedGrowth.Backbone()]
    ensures m.Spans() == [Span(0, 1)] && m.Dim() == 1
  {
  }

  lemma {:induction false} ExampleSetting(r: Rules, m0: Model)
    requires Example(r) && m0 == Genesis(r.params.spec) && Bare(m0, 0, 0)
    ensures Setting(MachineOf(r), m0, NewPageOf(r, 1), NewPageOf(r, 4))
  {
    var mc, pb := MachineOf(r), NewPageOf(r, 4);
    IsMachine(r);
    GenesisIsGood(r);
    RulesBranch(r, m0, 1);
    RulesBranch(r, m0, 4);
    ExampleTables(r, m0, 1);
    ExampleTables(r, m0, 4);
    FourthBlock(r, TipModel(mc, m0, 4, pb), Child(pb), 7, 6, PageRoot(pb));
    BlockMoves(r, TipModel(mc, m0, 4, pb), 7, 6, 4, PageRoot(pb), false);
    BareSpans(m0);
  }

  function Root0(): Header { Header(0, 0, 0, Leaf([0]), 0, "") }

  /**
   * Two engines on the protocol's rules, fed one set of blocks, each parent
   * first and without repetition: one has block 7 in its tree, the other not.
   */
  method TwoOrders(r: Rules) returns (a: Engine.BlockTree, b: Engine.BlockTree, ghost la: Log, ghost lb: Log)
    requires Example(r)
    ensures var xs, ys := BothFirst(NewPageOf(r, 1), NewPageOf(r, 4)), ChildFirst(NewPageOf(r, 1), NewPageOf(r, 4));
      && SetOf(xs) == SetOf(ys) && Collisionless(SetOf(xs)) && ParentFirst(0, xs) && ParentFirst(0, ys)
      && la.Blocks() == xs && lb.Blocks() == ys
    ensures Legal(MachineOf(r), 0, la) && la.at == Snapshot(a) && Legal(MachineOf(r), 0, lb) && lb.at == Snapshot(b)
    ensures la.Origin() == lb.Origin() == Base(Genesis(r.params.spec))
    ensures 7 !in a.blocks && 7 in b.blocks
  {
    ghost var mc := MachineOf(r);
    var m0, pa, pb := Genesis(r.params.spec), NewPageOf(r, 1), NewPageOf(r, 4);
    GenesisIsBare(r.params.spec);
    ExampleSetting(r, m0);
    SameBlocks(pa, pb);
    BareSpans(m0);
    OneLeaf([0], [Span(0, 1)]);
    a, la := EngineOrder.Run(MachineOf(r), Root0(), m0, [], [0], BothFirst(pa, pb));
    b, lb := EngineOrder.Run(MachineOf(r), Root0(), m0, [], [0], ChildFirst(pa, pb));
    BothFirstMisses(mc, m0, pa, pb, la);
    ChildFirstHears(mc, m0, pa, pb, lb);
  }
}
