/**
 * Growth on both sides of a fork, on the protocol's own rules: two branches
 * schedule growth from different triggers, so they append different pages under
 * one page id. A node on one branch keeps its own leaf for that page when it
 * rewinds to the other, and rejects an honest block there.
 */
module CrossedGrowth {
  import opened Int64
  import opened Wrappers
  import opened Capacity
  import opened Aggregation
  import opened Merkle
  import opened Machine
  import opened ModelState
  import opened WindowSteps
  import opened Sestrian
  import opened TreeIndex
  import opened TreeWalks
  import PI = PageInit

  /** One backbone page; every block closes a window; growth activates one window after it is scheduled. */
  const CHAIN: Params := Params(Spec(1, 0, 1, 4), 1, Knobs(10_000, 10_000, 1, 4, 0, 1), 1, 100, 100, 0)

  /** Pages drawn from a hash stream, and no other rule refuses anything. */
  function RulesOf(p: Params, stream: PI.Stream, shape: PI.Shape): Rules {
    Rules(p, 0, (trigger, id) => PI.Initial(stream, shape, trigger, id), (b, h, ledger, jurors, m) => Some([]))
  }

  /** What the windows below read of the parameters. */
  ghost predicate Tiny(p: Params) {
    && p.Valid() && p.spec.GenesisPages() == 1 && p.spec.nLayers == 1 && p.spec.backbone == 1 && p.window == 1
    && p.knobs.quotaMin == 10_000 && p.knobs.quotaMax == 10_000 && p.knobs.target == 1 && p.knobs.staleCeiling == 0
    && p.knobs.kSustain == 1 && p.announceLead == 1 && p.v3Height == 100 && p.v4Height == 100
  }

  lemma {:induction false} TinyExists() returns (p: Params)
    ensures Tiny(p) && p.spec.expertLen == 4
  {
    p := CHAIN;
    assert CHAIN.spec.ExpertsBelow(1) == CHAIN.spec.ExpertsBelow(0) + 0;
  }

  // ---- the models along a branch ----

  function Backbone(): Page { Page(0, 1, Kind.Backbone, true) }

  function GrownPage(len: nat): Page { Page(1, 1 + len, Expert(0, 0), false) }

  /** The backbone alone, quota at its one value, after some windows and that many idle ones in a row. */
  ghost predicate Bare(s: Model, window: nat, slack: nat) {
    && s.pages == [Backbone()] && s.quota == 10_000 && s.pinned == 0 && s.slack == slack && s.windowId == window
    && s.pending == [] && s.winAccepted == 0 && s.winZeroScored == 0 && s.eventsTotal == 0 && s.rev == 2
  }

  /** Growth is announced for window 3. */
  ghost predicate Announced(s: Model, trigger: nat) {
    && s.pages == [Backbone()] && s.quota == 10_000 && s.pinned == 0 && s.slack == 0 && s.windowId == 2
    && s.pending == [Growth(3, 0, trigger)] && s.winAccepted == 0 && s.winZeroScored == 0 && s.rev == 2
  }

  /** The page is there, and frozen at once for lack of demand. */
  ghost predicate HasGrown(s: Model, len: nat) { s.pages == [Backbone(), GrownPage(len)] && s.pending == [] }

  ghost predicate Quiet(b: Input) { b.nTxs == 0 && b.zeroScored == 0 }
  ghost predicate Busy(b: Input) { b.nTxs == 1 && b.zeroScored == 0 }

  lemma {:induction false} Boundaries(p: Params, height: nat)
    requires Tiny(p) && height > 0
    ensures AtBoundary(p, height)
  {
    CycleIsMod(height, 1);
  }

  lemma {:induction false} GenesisIsBare(spec: Spec)
    requires spec.nLayers > 0 && spec.GenesisPages() == 1 && spec.backbone == 1
    ensures Bare(Genesis(spec), 0, 0)
  {
    assert StartOf(spec, 1) == 1;
    assert GenesisTable(spec) == [PageAt(spec, 0)];
  }

  lemma {:induction false} IdleDecision(p: Params, slack: nat)
    requires Tiny(p)
    ensures Decide(10_000, 0, slack, 0, 0, p.knobs) == Decision(10_000, 0, slack + 1, false, true, false)
  {
  }

  // ---- the branch, window by window ----

  lemma {:induction false} FirstWindow(p: Params, s: State, b: Input)
    requires Tiny(p) && Bare(s, 0, 0) && Quiet(b)
    ensures Bare(Fold(s, p, 1, b), 1, 1) && FoldActivations(s, p, 1, b) == []
  {
    Boundaries(p, 1);
    IdleDecision(p, 0);
    NothingDue(1);
    var a := Accumulate(s, p, 1, b);
    UneventfulWindow(p, a, Decision(10_000, 0, 1, false, true, false), b.prevHash);
  }

  lemma {:induction false} DemandDecision(p: Params)
    requires Tiny(p)
    ensures Decide(10_000, 0, 1, 1, 0, p.knobs) == Decision(10_000, 1, 0, true, false, true)
  {
  }

  lemma {:induction false} SecondWindow(p: Params, s: State, b: Input)
    requires Tiny(p) && Bare(s, 1, 1) && Busy(b)
    ensures Announced(Fold(s, p, 2, b), b.prevHash) && FoldActivations(s, p, 2, b) == []
  {
    Boundaries(p, 2);
    DemandDecision(p);
    NothingDue(2);
    var a := Accumulate(s, p, 2, b);
    SchedulingWindow(p, a, Decision(10_000, 1, 0, true, false, true), b.prevHash);
  }

  lemma {:induction false} ThePage(pages: seq<Page>, spec: Spec)
    requires pages == [Backbone()]
    ensures NewPage(pages, 0, spec) == GrownPage(spec.expertLen).(active := true)
  {
    assert pages[..0] == [] && NextExpert([], 0) == 0;
  }

  lemma {:induction false} ThirdWindowOpens(p: Params, s: State, trigger: nat, b: Input)
    requires Tiny(p) && Announced(s, trigger)
    ensures FoldActivations(s, p, 3, b) == [Activation(1, 0, 0, trigger)]
  {
    Boundaries(p, 3);
    ThePage(s.pages, p.spec);
    OneEvent(s.pending[0], 3);
    OneAppended(s.pages, s.pending[0], p.spec);
  }

  lemma {:induction false} ThirdWindowCloses(p: Params, a: State, trigger: nat, d: Decision, prev: nat)
    requires Tiny(p) && Announced(a, trigger) && d.freeze && !d.schedule && !d.thawOk
    ensures HasGrown(Conclude(a, p, d, prev), p.spec.expertLen)
  {
    ThePage(a.pages, p.spec);
    OpeningWindow(p, a, d, prev);
  }

  lemma {:induction false} ThirdWindow(p: Params, s: State, trigger: nat, b: Input)
    requires Tiny(p) && Announced(s, trigger) && Quiet(b)
    ensures HasGrown(Fold(s, p, 3, b), p.spec.expertLen)
  {
    Boundaries(p, 3);
    IdleDecision(p, 0);
    var a := Accumulate(s, p, 3, b);
    ThirdWindowCloses(p, a, trigger, WindowDecision(a, p), b.prevHash);
  }

  lemma {:induction false} FourthWindow(p: Params, s: State, b: Input)
    requires Tiny(p) && HasGrown(s, p.spec.expertLen)
    ensures FoldActivations(s, p, 4, b) == []
  {
    NothingDue(s.windowId + 1);
  }

  // ---- the blocks ----

  /** The page init tells the two triggers apart, and the other rules pass everything. */
  ghost predicate Example(r: Rules) {
    && r.Valid() && Tiny(r.params) && r.maxNnz == 0
    && r.pageInit(1, 1) != r.pageInit(4, 1)
    && forall b, h, ledger, jurors, m :: r.check(b, h, ledger, jurors, m) == Some([])
  }

  const DELTA: Tx := Tx(1, [0], Coords(1, map[]))

  function Blk(id: Hash, prev: Hash, height: nat, root: Digest, busy: bool): Block {
    Block(Header(id, height, prev, root, 1, ""), if busy then [DELTA] else [], if busy then [Score(1, 1)] else [], [])
  }

  lemma {:induction false} NoMoves(txs: seq<Tx>, spans: seq<Span>, dim: nat)
    requires forall t, i: nat :: t in txs ==> t.body.At(i) == 0
    ensures Aggregate(txs, spans, dim) == map[]
  {
    forall i: nat ensures Delta(txs, spans, i) == 0 {
      var p := PageOf(spans, i);
      ClaimantsFrom(txs, p);
      if Column(txs, p, i) != [] { TM.ZeroColumn(Column(txs, p, i)); }
    }
  }

  lemma {:induction false} BlockInput(id: Hash, prev: Hash, height: nat, root: Digest, busy: bool)
    ensures var b := InputOf(Blk(id, prev, height, root, busy));
      b.prevHash == prev && (if busy then Busy(b) else Quiet(b))
  {
    var blk := Blk(id, prev, height, root, busy);
    if busy {
      assert blk.txs[1..] == [] && ZeroScored([], blk.scores) == 0;
      assert ScoreOf(blk.scores, 1) == 1;
    }
  }

  lemma {:induction false} BlockMoves(r: Rules, m: Model, id: Hash, prev: Hash, height: nat, root: Digest, busy: bool)
    ensures MachineOf(r).agg(Blk(id, prev, height, root, busy), m) == map[]
  {
    NoMoves(Blk(id, prev, height, root, busy).txs, m.Spans(), m.Dim());
  }

  lemma {:induction false} IdleBodies(r: Rules, m: Model, id: Hash, prev: Hash, height: nat, root: Digest)
    ensures MachineOf(r).bodies(Blk(id, prev, height, root, false), m)
  {
  }

  lemma {:induction false} BusyBodies(r: Rules, m: Model, id: Hash, prev: Hash, height: nat, root: Digest)
    requires Bare(m, 1, 1)
    ensures MachineOf(r).bodies(Blk(id, prev, height, root, true), m)
  {
    assert Nonzero(DELTA.body) == {};
    assert [0][..0] == [] && ClaimedParams(m, []) == 0 && ClaimedParams(m, [0]) == 1;
    assert RequiredNnz(m, [0]) == 0;
    assert BodyOk(m, r.maxNnz, DELTA);
  }

  // ---- one branch ----

  /** h is a block of t on parent p, with empty redo, the given dense state and that much work. */
  ghost predicate Placed(t: Index, h: Hash, p: Hash, height: nat, w: seq<int64>, tail: seq<int64>) {
    && h in t.blocks && h in t.state && h in t.records
    && t.blocks[h].header.prevHash == p && t.blocks[h].header.height == height && t.blocks[h].work == height
    && t.state[h] == w && t.records[h].redo == map[] && t.records[h].tail == tail
  }

  ghost predicate Extends<V>(m: map<Hash, V>, n: map<Hash, V>, hs: set<Hash>) {
    n.Keys == m.Keys + hs && forall k :: k in m ==> n[k] == m[k]
  }

  lemma {:induction false} ExtendsJoin<V>(m: map<Hash, V>, n: map<Hash, V>, o: map<Hash, V>, a: set<Hash>, b: set<Hash>)
    requires Extends(m, n, a) && Extends(n, o, b)
    ensures Extends(m, o, a + b)
  {
  }

  /** u is t with the blocks hs added. */
  ghost predicate Adds(t: Index, u: Index, hs: set<Hash>) {
    Extends(t.blocks, u.blocks, hs) && Extends(t.records, u.records, hs) && Extends(t.state, u.state, hs)
  }

  /** Attaching a plain block, on the maps alone. */
  lemma {:induction false} AttachFacts(mc: Machine, t: Index, b: Block, u: Index)
    requires b.header.prevHash in t.blocks && b.header.prevHash in t.state && b.header.hash !in t.blocks
    requires b.header.hash !in t.records && b.header.hash !in t.state
    requires b.header.work == 1 && t.blocks[b.header.prevHash].work < 100
    requires mc.agg(b, t.blocks[b.header.prevHash].model) == map[] && u == Grow(mc, t, b, [])
    ensures Adds(t, u, {b.header.hash})
    ensures var p := t.blocks[b.header.prevHash]; var h := b.header.hash;
      && u.blocks[h].header == b.header && u.blocks[h].work == p.work + 1 && u.blocks[h].model == mc.post(b, p.model)
      && u.records[h].redo == map[] && u.records[h].tail == Flat(mc.tails(b, p.model))
      && u.state[h] == t.state[b.header.prevHash] + Flat(mc.tails(b, p.model))
  {
    NoChange(t.state[b.header.prevHash]);
  }

  lemma {:induction false} AttachSound(mc: Machine, t: Index, b: Block)
    requires Sound(mc, 0, t) && b.header.prevHash in t.blocks && b.header.hash !in t.blocks && Permissive(mc)
    requires b.header.height == t.blocks[b.header.prevHash].header.height + 1
    requires mc.bodies(b, t.blocks[b.header.prevHash].model)
    ensures Sound(mc, 0, Grow(mc, t, b, []))
  {
    GrowSound(mc, 0, t, b, []);
  }

  lemma {:induction false} NoChange(w: seq<int64>)
    ensures Apply(w, map[]) == w
  {
  }

  // ---- the machine's steps along a branch ----

  lemma {:induction false} FirstBlock(r: Rules, m: Model, b: Block, id: Hash, prev: Hash, root: Digest)
    requires Example(r) && Bare(m, 0, 0) && b == Blk(id, prev, 1, root, false)
    ensures Bare(MachineOf(r).post(b, m), 1, 1) && MachineOf(r).tails(b, m) == []
  {
    BlockInput(id, prev, 1, root, false);
    FirstWindow(r.params, m, InputOf(b));
  }

  lemma {:induction false} SecondBlock(r: Rules, m: Model, b: Block, id: Hash, prev: Hash, root: Digest)
    requires Example(r) && Bare(m, 1, 1) && b == Blk(id, prev, 2, root, true)
    ensures Announced(MachineOf(r).post(b, m), prev) && MachineOf(r).tails(b, m) == []
  {
    BlockInput(id, prev, 2, root, true);
    SecondWindow(r.params, m, InputOf(b));
  }

  lemma {:induction false} ThirdBlock(r: Rules, m: Model, b: Block, id: Hash, prev: Hash, root: Digest, trigger: nat)
    requires Example(r) && Announced(m, trigger) && b == Blk(id, prev, 3, root, false)
    ensures HasGrown(MachineOf(r).post(b, m), r.params.spec.expertLen)
    ensures MachineOf(r).tails(b, m) == [r.pageInit(trigger, 1)]
  {
    BlockInput(id, prev, 3, root, false);
    ThirdWindow(r.params, m, trigger, InputOf(b));
    ThirdWindowOpens(r.params, m, trigger, InputOf(b));
  }

  lemma {:induction false} FourthBlock(r: Rules, m: Model, b: Block, id: Hash, prev: Hash, root: Digest)
    requires Example(r) && HasGrown(m, r.params.spec.expertLen) && b == Blk(id, prev, 4, root, false)
    ensures MachineOf(r).tails(b, m) == []
  {
    FourthWindow(r.params, m, InputOf(b));
  }

  // ---- the fork ----

  function PageRoot(page: seq<int64>): Digest { Node(Leaf([0]), Leaf(page)) }

  function B1(x: Hash): Block { Blk(x, 0, 1, Leaf([0]), false) }
  function B2(x: Hash): Block { Blk(x + 1, x, 2, Leaf([0]), true) }
  function B3(x: Hash, page: seq<int64>): Block { Blk(x + 2, x + 1, 3, PageRoot(page), false) }

  /** A block that moves nothing and appends the given pages. */
  ghost predicate Plain(mc: Machine, m: Model, b: Block, pages: seq<seq<int64>>) {
    mc.bodies(b, m) && mc.agg(b, m) == map[] && mc.tails(b, m) == pages
  }

  /** Three blocks on genesis, the last of which appends one page. */
  ghost predicate Branching(mc: Machine, m0: Model, x: Hash, page: seq<int64>) {
    var m1 := mc.post(B1(x), m0);
    var m2 := mc.post(B2(x), m1);
    Plain(mc, m0, B1(x), []) && Plain(mc, m1, B2(x), []) && Plain(mc, m2, B3(x, page), [page])
  }

  ghost function TipModel(mc: Machine, m0: Model, x: Hash, page: seq<int64>): Model {
    mc.post(B3(x, page), mc.post(B2(x), mc.post(B1(x), m0)))
  }

  lemma {:induction false} RulesBranch(r: Rules, m0: Model, x: Hash)
    requires Example(r) && Bare(m0, 0, 0)
    ensures Branching(MachineOf(r), m0, x, r.pageInit(x, 1))
    ensures HasGrown(TipModel(MachineOf(r), m0, x, r.pageInit(x, 1)), r.params.spec.expertLen)
  {
    var mc, page := MachineOf(r), r.pageInit(x, 1);
    var m1 := mc.post(B1(x), m0);
    var m2 := mc.post(B2(x), m1);
    FirstBlock(r, m0, B1(x), x, 0, Leaf([0]));
    IdleBodies(r, m0, x, 0, 1, Leaf([0]));
    BlockMoves(r, m0, x, 0, 1, Leaf([0]), false);
    SecondBlock(r, m1, B2(x), x + 1, x, Leaf([0]));
    BusyBodies(r, m1, x + 1, x, 2, Leaf([0]));
    BlockMoves(r, m1, x + 1, x, 2, Leaf([0]), true);
    ThirdBlock(r, m2, B3(x, page), x + 2, x + 1, PageRoot(page), x);
    IdleBodies(r, m2, x + 2, x + 1, 3, PageRoot(page));
    BlockMoves(r, m2, x + 2, x + 1, 3, PageRoot(page), false);
  }

  ghost predicate Permissive(mc: Machine) {
    forall b, h, ledger, jurors, m :: mc.check(b, h, ledger, jurors, m) == Some([])
  }

  /** t holds the branch from x. */
  ghost predicate HasBranch(mc: Machine, t: Index, m0: Model, x: Hash, page: seq<int64>) {
    && Placed(t, x, 0, 1, [0], []) && Placed(t, x + 1, x, 2, [0], []) && Placed(t, x + 2, x + 1, 3, [0] + page, page)
    && t.blocks[x + 2].model == TipModel(mc, m0, x, page) && t.blocks[x + 2].header.stateRoot == PageRoot(page)
  }

  /** Genesis alone, or with one branch. */
  ghost predicate Origin(t: Index, m0: Model) {
    && 0 in t.blocks && 0 in t.state && t.blocks[0].model == m0 && t.blocks[0].header.height == 0
    && t.blocks[0].work == 0 && t.state[0] == [0]
  }

  lemma {:induction false} FlatOne(page: seq<int64>)
    ensures Flat([]) == [] && Flat([page]) == page
  {
    assert [page][1..] == [];
  }

  /** t can take the branch from x. */
  ghost predicate Room(t: Index, m0: Model, x: Hash) {
    && Origin(t, m0) && t.state.Keys == t.blocks.Keys && t.records.Keys <= t.blocks.Keys
    && x !in t.blocks && x + 1 !in t.blocks && x + 2 !in t.blocks
  }

  ghost function After1(mc: Machine, t: Index, m0: Model, x: Hash): Index
    requires Room(t, m0, x)
  {
    Grow(mc, t, B1(x), [])
  }

  ghost function After2(mc: Machine, t: Index, m0: Model, x: Hash): Index
    requires Room(t, m0, x)
  {
    Grow(mc, After1(mc, t, m0, x), B2(x), [])
  }

  ghost function After3(mc: Machine, t: Index, m0: Model, x: Hash, page: seq<int64>): Index
    requires Room(t, m0, x)
  {
    Grow(mc, After2(mc, t, m0, x), B3(x, page), [])
  }

  lemma {:induction false} FirstFacts(mc: Machine, t: Index, m0: Model, x: Hash, u: Index)
    requires Room(t, m0, x) && Plain(mc, m0, B1(x), []) && u == After1(mc, t, m0, x)
    ensures Adds(t, u, {x}) && Placed(u, x, 0, 1, [0], []) && u.blocks[x].model == mc.post(B1(x), m0)
  {
    AttachFacts(mc, t, B1(x), u);
    FlatOne([]);
    assert u.state[x] == [0];
  }

  lemma {:induction false} SecondFacts(mc: Machine, t: Index, m0: Model, x: Hash, u: Index)
    requires Room(t, m0, x) && u == After2(mc, t, m0, x)
    requires Plain(mc, m0, B1(x), []) && Plain(mc, mc.post(B1(x), m0), B2(x), [])
    ensures Adds(t, u, {x, x + 1}) && Placed(u, x, 0, 1, [0], []) && Placed(u, x + 1, x, 2, [0], [])
    ensures u.blocks[x + 1].model == mc.post(B2(x), mc.post(B1(x), m0))
  {
    var v := After1(mc, t, m0, x);
    FirstFacts(mc, t, m0, x, v);
    AttachFacts(mc, v, B2(x), u);
    FlatOne([]);
    assert u.state[x + 1] == [0];
  }

  lemma {:induction false} BranchFacts(mc: Machine, t: Index, m0: Model, x: Hash, page: seq<int64>, u: Index)
    requires Room(t, m0, x) && Branching(mc, m0, x, page) && u == After3(mc, t, m0, x, page)
    ensures Adds(t, u, {x, x + 1, x + 2}) && HasBranch(mc, u, m0, x, page)
  {
    var v := After2(mc, t, m0, x);
    SecondFacts(mc, t, m0, x, v);
    FlatOne(page);
    AttachFacts(mc, v, B3(x, page), u);
    AddsJoin(t, v, u, {x, x + 1}, {x + 2});
    assert {x, x + 1} + {x + 2} == {x, x + 1, x + 2};
    PlacedStays(v, u, {x + 2}, x, 0, 1, [0], []);
    PlacedStays(v, u, {x + 2}, x + 1, x, 2, [0], []);
  }

  lemma {:induction false} AddsJoin(t: Index, v: Index, u: Index, a: set<Hash>, b: set<Hash>)
    requires Adds(t, v, a) && Adds(v, u, b)
    ensures Adds(t, u, a + b)
  {
    ExtendsJoin(t.blocks, v.blocks, u.blocks, a, b);
    ExtendsJoin(t.records, v.records, u.records, a, b);
    ExtendsJoin(t.state, v.state, u.state, a, b);
  }

  lemma {:induction false} PlacedStays(
    v: Index, u: Index, hs: set<Hash>, h: Hash, p: Hash, height: nat, w: seq<int64>, tail: seq<int64>)
    requires Adds(v, u, hs) && Placed(v, h, p, height, w, tail)
    ensures Placed(u, h, p, height, w, tail)
  {
  }

  lemma {:induction false} BranchSound(mc: Machine, t: Index, m0: Model, x: Hash, page: seq<int64>)
    requires Sound(mc, 0, t) && Permissive(mc) && Room(t, m0, x) && Branching(mc, m0, x, page)
    ensures Sound(mc, 0, After3(mc, t, m0, x, page))
  {
    FirstFacts(mc, t, m0, x, After1(mc, t, m0, x));
    SecondFacts(mc, t, m0, x, After2(mc, t, m0, x));
    AttachSound(mc, t, B1(x));
    AttachSound(mc, After1(mc, t, m0, x), B2(x));
    AttachSound(mc, After2(mc, t, m0, x), B3(x, page));
  }

  /** A branch already there stays when another is added. */
  lemma {:induction false} BranchStays(
    mc: Machine, t: Index, u: Index, hs: set<Hash>, m0: Model, x: Hash, page: seq<int64>)
    requires HasBranch(mc, t, m0, x, page) && Adds(t, u, hs)
    ensures HasBranch(mc, u, m0, x, page)
  {
    PlacedStays(t, u, hs, x, 0, 1, [0], []);
    PlacedStays(t, u, hs, x + 1, x, 2, [0], []);
    PlacedStays(t, u, hs, x + 2, x + 1, 3, [0] + page, page);
  }

  /** Genesis and the two branches: blocks 1, 2, 3 and blocks 4, 5, 6. */
  ghost predicate Forked(mc: Machine, t: Index, m0: Model, pa: seq<int64>, pb: seq<int64>) {
    && Sound(mc, 0, t) && Origin(t, m0)
    && t.blocks.Keys == {0, 1, 2, 3, 4, 5, 6} && t.records.Keys == {1, 2, 3, 4, 5, 6}
    && HasBranch(mc, t, m0, 1, pa) && HasBranch(mc, t, m0, 4, pb)
  }

  function Base(m0: Model): Index {
    Index(map[0 := Entry(Header(0, 0, 0, Leaf([0]), 0, ""), [], m0, 0)], map[], map[], map[0 := [0]])
  }

  lemma {:induction false} BaseSound(mc: Machine, m0: Model)
    requires mc.Valid() && mc.good(m0) && mc.Dim(m0) == 1
    ensures Sound(mc, 0, Base(m0)) && Room(Base(m0), m0, 1) && Base(m0).blocks.Keys == {0}
  {
  }

  lemma {:induction false} FirstBranch(mc: Machine, base: Index, m0: Model, pa: seq<int64>, one: Index)
    requires Room(base, m0, 1) && base.blocks.Keys == {0} && base.records == map[]
    requires Branching(mc, m0, 1, pa) && one == After3(mc, base, m0, 1, pa)
    ensures Room(one, m0, 4) && HasBranch(mc, one, m0, 1, pa)
    ensures one.blocks.Keys == {0, 1, 2, 3} && one.records.Keys == {1, 2, 3}
  {
    BranchFacts(mc, base, m0, 1, pa, one);
  }

  lemma {:induction false} SecondBranch(mc: Machine, m0: Model, pa: seq<int64>, pb: seq<int64>, one: Index, t: Index)
    requires Room(one, m0, 4) && HasBranch(mc, one, m0, 1, pa)
    requires one.blocks.Keys == {0, 1, 2, 3} && one.records.Keys == {1, 2, 3}
    requires Branching(mc, m0, 4, pb) && t == After3(mc, one, m0, 4, pb)
    ensures Origin(t, m0) && t.blocks.Keys == {0, 1, 2, 3, 4, 5, 6} && t.records.Keys == {1, 2, 3, 4, 5, 6}
    ensures HasBranch(mc, t, m0, 1, pa) && HasBranch(mc, t, m0, 4, pb)
  {
    BranchFacts(mc, one, m0, 4, pb, t);
    BranchStays(mc, one, t, {4, 5, 6}, m0, 1, pa);
  }

  lemma {:induction false} Fork(mc: Machine, m0: Model, pa: seq<int64>, pb: seq<int64>) returns (t: Index)
    requires mc.Valid() && mc.good(m0) && mc.Dim(m0) == 1 && Permissive(mc)
    requires Branching(mc, m0, 1, pa) && Branching(mc, m0, 4, pb)
    ensures Forked(mc, t, m0, pa, pb)
  {
    var base := Base(m0);
    BaseSound(mc, m0);
    var one := After3(mc, base, m0, 1, pa);
    FirstBranch(mc, base, m0, pa, one);
    t := After3(mc, one, m0, 4, pb);
    SecondBranch(mc, m0, pa, pb, one, t);
    BranchSound(mc, base, m0, 1, pa);
    BranchSound(mc, one, m0, 4, pb);
  }

  // ---- the rewind, and the honest child it rejects ----

  lemma {:induction false} BranchAncestors(mc: Machine, t: Index, m0: Model, x: Hash, page: seq<int64>)
    requires Rooted(t.blocks, 0) && HasBranch(mc, t, m0, x, page) && x > 0
    ensures Ancestors(t.blocks, 0, x + 2) == {0, x, x + 1, x + 2}
  {
    assert HasParent(t.blocks, x + 2) && HasParent(t.blocks, x + 1) && HasParent(t.blocks, x);
    assert Ancestors(t.blocks, 0, 0) == {0};
    assert Ancestors(t.blocks, 0, x) == {x} + {0};
    assert Ancestors(t.blocks, 0, x + 1) == {x + 1} + {x, 0};
  }

  /** The two tips differ by both branches, whose records move nothing. */
  lemma {:induction false} TipsApart(mc: Machine, t: Index, m0: Model, pa: seq<int64>, pb: seq<int64>)
    requires Forked(mc, t, m0, pa, pb)
    ensures Between(t.blocks, 0, 3, 6) == {1, 2, 3, 4, 5, 6} && Between(t.blocks, 0, 3, 6) <= t.records.Keys
    ensures forall spans, pid :: !TouchedBetween(0, t, 3, 6, spans, pid)
  {
    assert Ancestors(t.blocks, 0, 3) == {0, 1, 2, 3} by { BranchAncestors(mc, t, m0, 1, pa); }
    assert Ancestors(t.blocks, 0, 6) == {0, 4, 5, 6} by { BranchAncestors(mc, t, m0, 4, pb); }
    assert forall h :: h in {1, 2, 3, 4, 5, 6} ==> t.records[h].redo == map[];
  }

  /** The leaves of the tip that appended the page. */
  function LeavesWith(page: seq<int64>): seq<Digest> { [Leaf([0]), Leaf(page)] }

  /** The backbone and one grown page of that length. */
  ghost predicate TwoPages(mc: Machine, m: Model, len: nat) { mc.spans(m) == [Span(0, 1), Span(1, 1 + len)] }

  /** The rewind from block 3 to block 6 keeps block 3's leaf for the page both appended. */
  lemma {:induction false} StaleCache(mc: Machine, t: Index, m0: Model, pa: seq<int64>, pb: seq<int64>)
    requires Forked(mc, t, m0, pa, pb) && pa != [] && pb != [] && TwoPages(mc, t.blocks[6].model, |pb|)
    ensures Between(t.blocks, 0, 3, 6) <= t.records.Keys && CacheAt(mc, 0, t, 3, LeavesWith(pa), 6) == LeavesWith(pa)
    ensures t.state[6] == [0] + pb && t.state[3] == [0] + pa && BothGrew(0, t, 3, 6)
  {
    TipsApart(mc, t, m0, pa, pb);
    BranchAncestors(mc, t, m0, 1, pa);
    BranchAncestors(mc, t, m0, 4, pb);
    assert t.records[3].tail == pa && t.records[6].tail == pb;
  }

  function Child(page: seq<int64>): Block { Blk(7, 6, 4, PageRoot(page), false) }

  lemma {:induction false} TwoLeaves(w: seq<int64>, page: seq<int64>, spans: seq<Span>)
    requires spans == [Span(0, 1), Span(1, 1 + |page|)] && w == [0] + page
    ensures Within(spans, |w|) && Leaves(w, spans) == LeavesWith(page) && Root(Leaves(w, spans)) == PageRoot(page)
    ensures Slice(w, spans[1]) == page
  {
    assert Slice(w, spans[0]) == [0] && Slice(w, spans[1]) == page;
    assert Up(LeavesWith(page)) == [PageRoot(page)];
  }

  /** The node stands on block 3, the better of two equally heavy tips, and that block is honest. */
  lemma {:induction false} NodeOnThree(mc: Machine, t: Index, m0: Model, pa: seq<int64>, pb: seq<int64>)
    requires Forked(mc, t, m0, pa, pb) && TwoPages(mc, t.blocks[3].model, |pa|)
    ensures Engine.Consistent(mc, 0, t, 3, t.state[3], LeavesWith(pa)) && Engine.Honest(mc, 0, t, 3)
  {
    TwoLeaves(t.state[3], pa, mc.spans(t.blocks[3].model));
  }

  /** The child of block 6 is honest. */
  lemma {:induction false} ChildIsHonest(mc: Machine, t: Index, m0: Model, pa: seq<int64>, pb: seq<int64>)
    requires Forked(mc, t, m0, pa, pb) && Permissive(mc) && Plain(mc, t.blocks[6].model, Child(pb), [])
    requires TwoPages(mc, t.blocks[6].model, |pb|)
    ensures DenseAccepts(mc, 0, t, Child(pb))
  {
    var m, w := t.blocks[6].model, t.state[6];
    assert w == [0] + pb;
    FlatOne([]);
    StepLength(mc, w, m, Child(pb));
    NoChange(w);
    assert mc.Step(w, m, Child(pb)) == w;
    TwoLeaves(w, pb, mc.spans(m));
  }

  /** The cache the node judges it with does not suffice. */
  lemma {:induction false} ChildIsRefused(mc: Machine, t: Index, m0: Model, pa: seq<int64>, pb: seq<int64>)
    requires Forked(mc, t, m0, pa, pb) && pa != pb && pa != [] && pb != []
    requires Permissive(mc) && Plain(mc, t.blocks[6].model, Child(pb), []) && TwoPages(mc, t.blocks[6].model, |pb|)
    ensures Between(t.blocks, 0, 3, 6) <= t.records.Keys
    ensures !Engine.Suffices(mc, 0, t, Child(pb), CacheAt(mc, 0, t, 3, LeavesWith(pa), 6))
    ensures !Engine.Stages(mc, 0, t, Child(pb), CacheAt(mc, 0, t, 3, LeavesWith(pa), 6))
  {
    StaleCache(mc, t, m0, pa, pb);
    ChildIsHonest(mc, t, m0, pa, pb);
    var ls, spans, w := CacheAt(mc, 0, t, 3, LeavesWith(pa), 6), mc.spans(t.blocks[6].model), t.state[6];
    Inside(mc, t.blocks[6].model);
    TwoLeaves(w, pb, spans);
    assert ls[1] == Leaf(pa) && !Engine.Touches(map[], spans[1]);
    Engine.VerdictExact(mc, 0, t, Child(pb), ls);
  }

  lemma {:induction false} RulesAreExample(p: Params, stream: PI.Stream, shape: PI.Shape)
    requires Tiny(p) && p.spec.expertLen == shape.Len() > 0
    requires PI.Initial(stream, shape, 1, 1) != PI.Initial(stream, shape, 4, 1)
    ensures Example(RulesOf(p, stream, shape))
  {
  }

  /** Such rules exist: any hash stream that draws some weight differently for the two triggers gives some. */
  lemma {:induction false} RulesExist(stream: PI.Stream, shape: PI.Shape, j: nat) returns (p: Params)
    requires shape == PI.Shape(1, 1) && PI.DrawsDiffer(stream, shape, 1, 4, 1, j)
    ensures Example(RulesOf(p, stream, shape))
  {
    p := TinyExists();
    PI.TriggersDiffer(stream, shape, 1, 4, 1);
    RulesAreExample(p, stream, shape);
  }

  lemma {:induction false} GrownSpans(m: Model, len: nat)
    requires HasGrown(m, len)
    ensures m.Spans() == [Span(0, 1), Span(1, 1 + len)]
  {
  }

  /** The page a branch appends. */
  function NewPageOf(r: Rules, trigger: nat): seq<int64> { r.pageInit(trigger, 1) }

  /** On the protocol's own rules the two tips and the child meet every requirement above. */
  lemma {:induction false} ExampleForks(r: Rules, m0: Model, pa: seq<int64>, pb: seq<int64>) returns (t: Index)
    requires Example(r) && m0 == Genesis(r.params.spec) && Bare(m0, 0, 0)
    requires pa == NewPageOf(r, 1) && pb == NewPageOf(r, 4)
    ensures Permissive(MachineOf(r)) && Forked(MachineOf(r), t, m0, pa, pb)
    ensures TwoPages(MachineOf(r), t.blocks[3].model, |pa|) && TwoPages(MachineOf(r), t.blocks[6].model, |pb|)
    ensures Plain(MachineOf(r), t.blocks[6].model, Child(pb), [])
  {
    IsMachine(r);
    GenesisIsGood(r);
    RulesBranch(r, m0, 1);
    RulesBranch(r, m0, 4);
    t := Fork(MachineOf(r), m0, pa, pb);
    GrownSpans(t.blocks[3].model, |pa|);
    GrownSpans(t.blocks[6].model, |pb|);
    FourthBlock(r, t.blocks[6].model, Child(pb), 7, 6, PageRoot(pb));
    BlockMoves(r, t.blocks[6].model, 7, 6, 4, PageRoot(pb), false);
  }

  /**
   * A run of the protocol on which the leaf cache and dense validation part: a
   * node on an honest head, with every record in place, has a stale leaf after
   * rewinding to the other tip and refuses that tip's honest child.
   */
  lemma {:induction false} StaleLeaf(r: Rules) returns (t: Index)
    requires Example(r)
    ensures MachineOf(r).Valid() && Sound(MachineOf(r), 0, t) && 3 in t.blocks && 6 in t.blocks
    ensures var mine := LeavesWith(NewPageOf(r, 1)); var child := Child(NewPageOf(r, 4));
      && Engine.Consistent(MachineOf(r), 0, t, 3, t.state[3], mine) && Engine.Honest(MachineOf(r), 0, t, 3)
      && Between(t.blocks, 0, 3, 6) <= t.records.Keys && BothGrew(0, t, 3, 6)
      && child.header.prevHash == 6 && DenseAccepts(MachineOf(r), 0, t, child)
      && !Engine.Stages(MachineOf(r), 0, t, child, CacheAt(MachineOf(r), 0, t, 3, mine, 6))
  {
    var m0 := Genesis(r.params.spec);
    GenesisIsBare(r.params.spec);
    t := ExampleForks(r, m0, NewPageOf(r, 1), NewPageOf(r, 4));
    Conclusion(MachineOf(r), t, m0, NewPageOf(r, 1), NewPageOf(r, 4));
  }

  lemma {:induction false} Conclusion(mc: Machine, t: Index, m0: Model, pa: seq<int64>, pb: seq<int64>)
    requires Forked(mc, t, m0, pa, pb) && Permissive(mc) && Plain(mc, t.blocks[6].model, Child(pb), [])
    requires pa != pb && pa != [] && pb != []
    requires TwoPages(mc, t.blocks[3].model, |pa|) && TwoPages(mc, t.blocks[6].model, |pb|)
    ensures Sound(mc, 0, t) && mc.Valid() && 3 in t.blocks && 6 in t.blocks
    ensures Engine.Consistent(mc, 0, t, 3, t.state[3], LeavesWith(pa)) && Engine.Honest(mc, 0, t, 3)
    ensures Between(t.blocks, 0, 3, 6) <= t.records.Keys && BothGrew(0, t, 3, 6)
    ensures DenseAccepts(mc, 0, t, Child(pb))
    ensures !Engine.Stages(mc, 0, t, Child(pb), CacheAt(mc, 0, t, 3, LeavesWith(pa), 6))
  {
    NodeOnThree(mc, t, m0, pa, pb);
    StaleCache(mc, t, m0, pa, pb);
    ChildIsHonest(mc, t, m0, pa, pb);
    ChildIsRefused(mc, t, m0, pa, pb);
  }
}
