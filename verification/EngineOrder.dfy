/**
 * Runs of the incremental engine. A run ends with the tree dense validation
 * builds if and only if every verdict on the way was dense validation; it does
 * so, in any parent-first order, when the blocks that grow the model lie on one
 * chain. (OrderMatters has a set of blocks on which the order decides.)
 */
module EngineOrder {
  import opened Int64
  import opened Merkle
  import opened Machine
  import opened TreeIndex
  import opened TreeWalks
  import opened DenseTrees
  import opened Engine = BlockTree

  /** An engine between two calls. */
  datatype Snap = Snap(t: Index, head: Hash, canon: seq<int64>, leaves: seq<Digest>)

  /** A consistent engine that has forgotten nothing. */
  ghost predicate Standing(mc: Machine, g: Hash, s: Snap) {
    Consistent(mc, g, s.t, s.head, s.canon, s.leaves) && s.t.records.Keys == s.t.bodies.Keys
  }

  /** The engine has to validate b: it is new and its parent is known. */
  predicate Judges(s: Snap, b: Block) { b.header.hash !in s.t.blocks && b.header.prevHash in s.t.blocks }

  /** The cache b is judged with: the node's own, rewound to b's parent. */
  ghost function Judging(mc: Machine, g: Hash, s: Snap, b: Block): (ls: seq<Digest>)
    requires Standing(mc, g, s) && b.header.prevHash in s.t.blocks
    ensures |ls| == |mc.spans(s.t.blocks[b.header.prevHash].model)|
  {
    ArchiveReaches(g, s.t, s.head, b.header.prevHash);
    CacheAt(mc, g, s.t, s.head, s.leaves, b.header.prevHash)
  }

  /** If b is honest, it meets a cache that suffices; if it is not, it is refused. */
  ghost predicate Truthful(mc: Machine, g: Hash, s: Snap, b: Block)
    requires Standing(mc, g, s)
  {
    Judges(s, b) ==>
      var ls := Judging(mc, g, s, b);
      if DenseAccepts(mc, g, s.t, b) then Suffices(mc, g, s.t, b, ls) else !Stages(mc, g, s.t, b, ls)
  }

  /** One call: a judged block is attached exactly when it stages; nothing else changes the tree. */
  ghost predicate Moves(mc: Machine, g: Hash, s: Snap, b: Block, n: Snap) {
    && Standing(mc, g, s) && Standing(mc, g, n)
    && (if Judges(s, b) && Stages(mc, g, s.t, b, Judging(mc, g, s, b))
        then Attached(mc, g, s.t, b, n.t) else n.t == s.t)
  }

  /** The engine's states from genesis on, with the block fed before each. */
  datatype Log = Begin(at: Snap) | Then(before: Log, b: Block, at: Snap) {
    /** The tree of genesis the run started from. */
    function Origin(): Index {
      match this case Begin(s) => s.t case Then(l, _, _) => l.Origin()
    }

    function Blocks(): seq<Block> {
      match this case Begin(_) => [] case Then(l, b, _) => l.Blocks() + [b]
    }

    function Fed(): set<Block> {
      match this case Begin(_) => {} case Then(l, b, _) => l.Fed() + {b}
    }

    /** No block is fed twice. */
    predicate Once() {
      match this case Begin(_) => true case Then(l, b, _) => b !in l.Fed() && l.Once()
    }

    /** Every block comes after its parent. */
    ghost predicate Ordered(g: Hash) {
      match this
      case Begin(_) => true
      case Then(l, b, _) =>
        l.Ordered(g) && (b.header.prevHash == g || exists p :: p in l.Fed() && p.header.hash == b.header.prevHash)
    }
  }

  /** Each state follows from the one before by one call of the engine. */
  ghost predicate Legal(mc: Machine, g: Hash, log: Log) {
    match log
    case Begin(s) => Standing(mc, g, s) && Fledgling(mc, g, s.t)
    case Then(l, b, s) => Legal(mc, g, l) && Moves(mc, g, l.at, b, s)
  }

  /** Every verdict of the run was true. */
  ghost predicate AllTruthful(mc: Machine, g: Hash, log: Log)
    requires Legal(mc, g, log)
  {
    match log case Begin(_) => true case Then(l, b, _) => Truthful(mc, g, l.at, b) && AllTruthful(mc, g, l)
  }

  // ---- one call ----

  lemma {:induction false} TruthIsVerdict(mc: Machine, g: Hash, s: Snap, b: Block)
    requires Standing(mc, g, s) && Judges(s, b)
    ensures Truthful(mc, g, s, b) <==>
      (Stages(mc, g, s.t, b, Judging(mc, g, s, b)) <==> DenseAccepts(mc, g, s.t, b))
  {
    VerdictExact(mc, g, s.t, b, Judging(mc, g, s, b));
  }

  /** Without pruning, the attached tree is exactly the grown one. */
  lemma {:induction false} NothingPruned(mc: Machine, g: Hash, t: Index, b: Block, led: Opaque, v: Index)
    requires Domains(g, t) && b.header.prevHash in t.blocks && Pruned(Grow(mc, t, b, led), v)
    requires t.records.Keys == t.bodies.Keys && v.records.Keys == v.bodies.Keys
    ensures v == Grow(mc, t, b, led)
  {
    var w := Grow(mc, t, b, led);
    assert v.records.Keys == w.records.Keys;
    assert v.records == w.records;
  }

  lemma {:induction false} AttachedGrew(mc: Machine, g: Hash, t: Index, b: Block, v: Index) returns (led: Opaque)
    requires Sound(mc, g, t) && b.header.prevHash in t.blocks && b.header.hash !in t.blocks
    requires Attached(mc, g, t, b, v) && t.records.Keys == t.bodies.Keys && v.records.Keys == v.bodies.Keys
    ensures Fresh(g, t, b) && v == Grow(mc, t, b, led)
    ensures Accepted(mc, b, t.blocks[b.header.prevHash], JurorsOf(g, t, b.header.prevHash), led)
  {
    led :| AttachedWith(mc, g, t, b, led, v);
    NothingPruned(mc, g, t, b, led, v);
  }

  /** A call adds at most the fed block, and leaves the rest. */
  lemma {:induction false} MoveCame(
    mc: Machine, g: Hash, s: Snap, b: Block, n: Snap, fed: set<Block>, more: set<Block>)
    requires Moves(mc, g, s, b, n) && Came(s.t, fed) && more == fed + {b}
    ensures Came(n.t, more) && forall h :: h in s.t.blocks ==> Same(s.t, n.t, h)
  {
    if n.t != s.t {
      var led := AttachedGrew(mc, g, s.t, b, n.t);
      GrowCame(mc, s.t, b, led, fed);
    }
  }

  /** A true verdict keeps the tree faithful. */
  lemma {:induction false} Forward(
    mc: Machine, g: Hash, s: Snap, b: Block, n: Snap, fed: set<Block>, more: set<Block>)
    requires Moves(mc, g, s, b, n) && Truthful(mc, g, s, b) && Faithful(mc, g, s.t, fed)
    requires Parented(g, fed) && more == fed + {b} && Collisionless(more)
    ensures Faithful(mc, g, n.t, more)
  {
    if Judges(s, b) { TruthIsVerdict(mc, g, s, b); }
    if n.t != s.t {
      var led := AttachedGrew(mc, g, s.t, b, n.t);
      GrowFaithful(mc, g, s.t, b, led, fed);
    } else {
      KeptFaithful(mc, g, s.t, b, fed);
    }
  }

  /** What a grown tree says of the tree before, when the block was not fed before. */
  lemma {:induction false} Ungrow(mc: Machine, g: Hash, t: Index, b: Block, led: Opaque, fed: set<Block>)
    requires Fresh(g, t, b) && Sound(mc, g, t) && Came(t, fed) && b !in fed && Collisionless(fed + {b})
    requires Accepted(mc, b, t.blocks[b.header.prevHash], JurorsOf(g, t, b.header.prevHash), led)
    requires Faithful(mc, g, Grow(mc, t, b, led), fed + {b})
    ensures Faithful(mc, g, t, fed) && DenseAccepts(mc, g, t, b)
  {
    var u := Grow(mc, t, b, led);
    AttachedBy(mc, g, t, b, led, u);
    HonestIsDense(mc, g, t, b, u);
    assert Honest(mc, g, u, b.header.hash);
    forall h | h in t.blocks ensures Honest(mc, g, t, h) { assert Honest(mc, g, u, h); }
    forall x | x in fed ensures Dealt(mc, g, t, x) {
      assert Dealt(mc, g, u, x);
      if x.header.prevHash in t.blocks { VerdictStable(mc, g, t, b, led, x); }
    }
  }

  /** If the tree is faithful after a block not fed before, it was faithful, and the verdict was true. */
  lemma {:induction false} Backward(
    mc: Machine, g: Hash, s: Snap, b: Block, n: Snap, fed: set<Block>, more: set<Block>)
    requires Moves(mc, g, s, b, n) && Faithful(mc, g, n.t, more) && Came(s.t, fed)
    requires b !in fed && more == fed + {b} && Collisionless(more)
    ensures Faithful(mc, g, s.t, fed) && Truthful(mc, g, s, b)
  {
    if n.t != s.t {
      var led := AttachedGrew(mc, g, s.t, b, n.t);
      Ungrow(mc, g, s.t, b, led, fed);
    } else {
      assert Dealt(mc, g, s.t, b);
      forall x | x in fed ensures Dealt(mc, g, s.t, x) {}
    }
    if Judges(s, b) { TruthIsVerdict(mc, g, s, b); }
  }

  // ---- a run is dense validation if and only if its verdicts are true ----

  lemma {:induction false} LegalStands(mc: Machine, g: Hash, log: Log)
    requires Legal(mc, g, log)
    ensures Standing(mc, g, log.at)
  {
  }

  lemma {:induction false} LogCame(mc: Machine, g: Hash, log: Log)
    requires Legal(mc, g, log)
    ensures Came(log.at.t, log.Fed()) && Same(log.Origin(), log.at.t, g) && Fledgling(mc, g, log.Origin())
  {
    if log.Then? {
      LogCame(mc, g, log.before);
      MoveCame(mc, g, log.before.at, log.b, log.at, log.before.Fed(), log.Fed());
    }
  }

  lemma {:induction false} OrderedParented(g: Hash, log: Log)
    requires log.Ordered(g)
    ensures Parented(g, log.Fed())
  {
    if log.Then? { OrderedParented(g, log.before); }
  }

  /** True verdicts keep the tree of the run faithful. */
  lemma {:induction false} TruthfulRun(mc: Machine, g: Hash, log: Log)
    requires Legal(mc, g, log) && AllTruthful(mc, g, log) && log.Ordered(g) && Collisionless(log.Fed())
    ensures Faithful(mc, g, log.at.t, log.Fed())
  {
    if log.Then? {
      TruthfulRun(mc, g, log.before);
      OrderedParented(g, log.before);
      Forward(mc, g, log.before.at, log.b, log.at, log.before.Fed(), log.Fed());
    }
  }

  /** Without repetition, a faithful tree at the end means true verdicts all along. */
  lemma {:induction false} FaithfulRun(mc: Machine, g: Hash, log: Log)
    requires Legal(mc, g, log) && log.Once() && Collisionless(log.Fed()) && Faithful(mc, g, log.at.t, log.Fed())
    ensures AllTruthful(mc, g, log)
  {
    if log.Then? {
      LogCame(mc, g, log.before);
      Backward(mc, g, log.before.at, log.b, log.at, log.before.Fed(), log.Fed());
      FaithfulRun(mc, g, log.before);
    }
  }

  /** The tree and the dense states of two indices are the same. */
  ghost predicate SameTree(t: Index, u: Index) { t.blocks == u.blocks && t.state == u.state }

  lemma {:induction false} FedIsSet(log: Log)
    ensures log.Fed() == SetOf(log.Blocks())
  {
    if log.Then? { FedIsSet(log.before); }
  }

  lemma {:induction false} OrderedIsParentFirst(g: Hash, log: Log)
    ensures log.Ordered(g) <==> ParentFirst(g, log.Blocks())
  {
    if log.Then? {
      OrderedIsParentFirst(g, log.before);
      FedIsSet(log.before);
      ParentFirstSnoc(g, log.before.Blocks(), log.b);
    }
  }

  /**
   * A run without repetition ends with the dense tree if and only if every
   * honest block it judged met a cache that sufficed and every other was refused.
   */
  lemma {:induction false} RunExact(mc: Machine, g: Hash, log: Log)
    requires Legal(mc, g, log) && log.Ordered(g) && log.Once() && Collisionless(log.Fed())
    ensures Sound(mc, g, log.Origin())
    ensures SameTree(log.at.t, DenseTree(mc, g, log.Origin(), log.Blocks())) <==> AllTruthful(mc, g, log)
  {
    LogCame(mc, g, log);
    LegalStands(mc, g, log);
    FedIsSet(log);
    OrderedIsParentFirst(g, log);
    FaithfulIsDense(mc, g, log.Origin(), log.at.t, log.Blocks());
    if AllTruthful(mc, g, log) { TruthfulRun(mc, g, log); }
    if Faithful(mc, g, log.at.t, log.Fed()) { FaithfulRun(mc, g, log); }
  }

  // ---- growth on one chain ----

  /** On a straight tree the engine's verdict is dense validation. */
  lemma {:induction false} JudgesDensely(mc: Machine, g: Hash, s: Snap, b: Block)
    requires Standing(mc, g, s) && Straight(g, s.t) && AllHonest(mc, g, s.t)
    ensures Truthful(mc, g, s, b)
  {
    if Judges(s, b) {
      ArchiveReaches(g, s.t, s.head, b.header.prevHash);
      NothingCrosses(g, s.t, s.head, b.header.prevHash);
      assert Honest(mc, g, s.t, s.head);
      UncrossedSuffices(mc, g, s.t, b, s.head, s.canon, s.leaves);
    }
  }

  lemma {:induction false} StraightStep(
    mc: Machine, g: Hash, s: Snap, b: Block, n: Snap, fed: set<Block>, more: set<Block>, u: Index, all: set<Block>)
    requires Moves(mc, g, s, b, n) && Faithful(mc, g, s.t, fed) && Parented(g, fed) && more == fed + {b} && more <= all
    requires Reference(mc, g, u, all) && Same(s.t, u, g)
    ensures Truthful(mc, g, s, b) && Faithful(mc, g, n.t, more)
  {
    StraightWithin(mc, g, s.t, u, all);
    JudgesDensely(mc, g, s, b);
    Forward(mc, g, s, b, n, fed, more);
  }

  /** If growth lies on one chain in the dense tree of all blocks, every tree of the run is faithful. */
  lemma {:induction false} StraightRun(mc: Machine, g: Hash, log: Log, u: Index, all: set<Block>)
    requires Legal(mc, g, log) && log.Ordered(g) && log.Fed() <= all
    requires Reference(mc, g, u, all) && Same(log.Origin(), u, g)
    ensures Faithful(mc, g, log.at.t, log.Fed())
  {
    if log.Then? {
      StraightRun(mc, g, log.before, u, all);
      OrderedParented(g, log.before);
      LogCame(mc, g, log.before);
      StraightStep(mc, g, log.before.at, log.b, log.at, log.before.Fed(), log.Fed(), u, all);
    }
  }

  ghost predicate Unsaturated(t: Index) { forall h :: h in t.blocks ==> t.blocks[h].work < U64_MAX }

  /** Then the run ends with that tree. */
  lemma {:induction false} StraightEnd(mc: Machine, g: Hash, log: Log, u: Index)
    requires Legal(mc, g, log) && log.Ordered(g)
    requires Reference(mc, g, u, log.Fed()) && Same(log.Origin(), u, g)
    ensures Standing(mc, g, log.at) && SameTree(log.at.t, u) && AllHonest(mc, g, log.at.t)
  {
    StraightRun(mc, g, log, u, log.Fed());
    LogCame(mc, g, log);
    LegalStands(mc, g, log);
    TreesAgree(mc, g, log.at.t, u, log.Fed());
  }

  // ---- the engine itself ----

  ghost function Snapshot(e: Engine.BlockTree): Snap
    reads e
  {
    Snap(e.View(), e.head, e.canon, e.leaves)
  }

  /** One call of the engine is a move. */
  method FeedOne(e: Engine.BlockTree, b: Block)
    requires e.Valid() && e.Archive()
    modifies e
    ensures e.Valid() && e.Archive() && Moves(e.mc, e.genesisHash, old(Snapshot(e)), b, Snapshot(e))
  {
    ghost var s := Snapshot(e);
    if b.header.prevHash in e.blocks { ArchiveReaches(e.genesisHash, s.t, s.head, b.header.prevHash); }
    if Judges(s, b) { VerdictExact(e.mc, e.genesisHash, s.t, b, Judging(e.mc, e.genesisHash, s, b)); }
    var r := e.AddBlock(b);
  }

  /** An engine at genesis. */
  method Boot(mc: Machine, header: Header, model: Model, ledger: Opaque, w: seq<int64>)
    returns (e: Engine.BlockTree)
    requires mc.Valid() && mc.good(model) && |w| == mc.Dim(model) && header.height == 0
    requires mc.spans(model) != [] && Within(mc.spans(model), |w|)
    requires header.stateRoot == Root(Leaves(w, mc.spans(model)))
    ensures fresh(e) && e.mc == mc && e.genesisHash == header.hash && e.Valid() && e.Archive()
    ensures e.View() == Start(header, model, ledger, w) && Legal(mc, header.hash, Begin(Snapshot(e)))
  {
    e := new Engine.BlockTree(mc, header, model, ledger, w);
    CacheIsHonesty(mc, header.hash, e.View(), e.head, e.canon, e.leaves);
  }

  lemma {:induction false} NextPrefix(blocks: seq<Block>, i: nat)
    requires i < |blocks|
    ensures blocks[..i + 1] == blocks[..i] + [blocks[i]]
  {
  }

  /** Feed an engine from genesis, keeping its states. */
  method Run(mc: Machine, header: Header, model: Model, ledger: Opaque, w: seq<int64>, blocks: seq<Block>)
    returns (e: Engine.BlockTree, ghost log: Log)
    requires mc.Valid() && mc.good(model) && |w| == mc.Dim(model) && header.height == 0
    requires mc.spans(model) != [] && Within(mc.spans(model), |w|)
    requires header.stateRoot == Root(Leaves(w, mc.spans(model)))
    ensures fresh(e) && e.mc == mc && e.genesisHash == header.hash && e.Valid() && e.Archive()
    ensures Legal(mc, header.hash, log) && log.Blocks() == blocks && log.at == Snapshot(e)
    ensures log.Origin() == Start(header, model, ledger, w)
  {
    e := Boot(mc, header, model, ledger, w);
    log := Begin(Snapshot(e));
    for i := 0 to |blocks|
      invariant e.mc == mc && e.genesisHash == header.hash && e.Valid() && e.Archive()
      invariant Legal(mc, header.hash, log) && log.Blocks() == blocks[..i] && log.at == Snapshot(e)
      invariant log.Origin() == Start(header, model, ledger, w)
    {
      NextPrefix(blocks, i);
      FeedOne(e, blocks[i]);
      log := Then(log, blocks[i], Snapshot(e));
    }
    assert blocks[..|blocks|] == blocks;
  }

  /** The tree of genesis alone. */
  function Start(header: Header, model: Model, ledger: Opaque, w: seq<int64>): Index {
    Index(map[header.hash := Entry(header, ledger, model, 0)], map[], map[], map[header.hash := w])
  }

  /** In the tree dense validation makes of the blocks, growth lies on one chain, and work below the u64 limit. */
  ghost predicate OneGrowthChain(mc: Machine, g: Hash, t: Index, blocks: seq<Block>) {
    Sound(mc, g, t) && Straight(g, DenseTree(mc, g, t, blocks)) && Unsaturated(DenseTree(mc, g, t, blocks))
  }

  /** Two runs on one set of blocks end with its dense tree. */
  lemma {:induction false} BothEnd(
    mc: Machine, g: Hash, start: Index, xs: seq<Block>, ys: seq<Block>, la: Log, lb: Log)
    requires Legal(mc, g, la) && la.Blocks() == xs && la.Origin() == start
    requires Legal(mc, g, lb) && lb.Blocks() == ys && lb.Origin() == start
    requires SetOf(xs) == SetOf(ys) && Collisionless(SetOf(xs)) && ParentFirst(g, xs) && ParentFirst(g, ys)
    requires OneGrowthChain(mc, g, start, xs)
    ensures var u := DenseTree(mc, g, start, xs); SameTree(la.at.t, u) && SameTree(lb.at.t, u)
    ensures Standing(mc, g, la.at) && AllHonest(mc, g, la.at.t) && Standing(mc, g, lb.at) && AllHonest(mc, g, lb.at.t)
  {
    var u := DenseTree(mc, g, start, xs);
    LogCame(mc, g, la);
    DenseFaithful(mc, g, start, xs);
    FedIsSet(la);
    FedIsSet(lb);
    OrderedIsParentFirst(g, la);
    OrderedIsParentFirst(g, lb);
    StraightEnd(mc, g, la, u);
    StraightEnd(mc, g, lb, u);
  }

  /**
   * Two engines fed one set of blocks, each in any parent-first order with any
   * repetition, none pruning. If the growth of the set lies on one chain, both
   * end with its dense tree, and with the same head, vector and leaf cache.
   */
  method AnyOrder(
    mc: Machine, header: Header, model: Model, ledger: Opaque, w: seq<int64>, xs: seq<Block>, ys: seq<Block>)
    returns (a: Engine.BlockTree, b: Engine.BlockTree)
    requires mc.Valid() && mc.good(model) && |w| == mc.Dim(model) && header.height == 0
    requires mc.spans(model) != [] && Within(mc.spans(model), |w|)
    requires header.stateRoot == Root(Leaves(w, mc.spans(model)))
    requires SetOf(xs) == SetOf(ys) && Collisionless(SetOf(xs))
    requires ParentFirst(header.hash, xs) && ParentFirst(header.hash, ys)
    requires OneGrowthChain(mc, header.hash, Start(header, model, ledger, w), xs)
    ensures a.Valid() && b.Valid()
    ensures a.blocks == b.blocks == DenseTree(mc, header.hash, Start(header, model, ledger, w), xs).blocks
    ensures a.head == b.head && a.canon == b.canon && a.leaves == b.leaves
  {
    ghost var g, start := header.hash, Start(header, model, ledger, w);
    ghost var la, lb;
    a, la := Run(mc, header, model, ledger, w, xs);
    b, lb := Run(mc, header, model, ledger, w, ys);
    BothEnd(mc, g, start, xs, ys, la, lb);
    HeadsAgree(mc, g, a.View(), b.View(), a.head, b.head, a.canon, b.canon, a.leaves, b.leaves);
  }
}
