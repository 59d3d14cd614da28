/** The real chain as a Machine: the engine's theorems apply to the protocol's own rules. */
module Sestrian {
  import opened Wrappers
  import opened Int64
  import opened Aggregation
  import opened Machine
  import opened ModelState
  import opened PageTableLaw
  import opened TreeIndex
  import Engine = BlockTree

  /** pageInit derives a new expert's weights from its trigger hash; check is every rule that reads no weights. */
  datatype Rules = Rules(
    params: Params, maxNnz: nat, pageInit: (nat, nat) -> seq<int64>,
    check: (Block, nat, Opaque, set<string>, Model) -> Option<Opaque>)
  {
    ghost predicate Valid() {
      && params.Valid() && params.spec.expertLen > 0
      && forall trigger, id :: |pageInit(trigger, id)| == params.spec.expertLen
    }
  }

  // ---- the body rules ----

  predicate Increasing(pages: seq<nat>) {
    forall i, j :: 0 <= i < j < |pages| ==> pages[i] < pages[j]
  }

  function ClaimedParams(m: Model, pages: seq<nat>): nat {
    if pages == [] then 0
    else
      var rest := ClaimedParams(m, pages[..|pages| - 1]);
      var id := pages[|pages| - 1];
      if id < |m.pages| && m.pages[id].start <= m.pages[id].end
      then rest + (m.pages[id].end - m.pages[id].start) else rest
  }

  /** Quota 10000 asks for one coordinate in a hundred. */
  function RequiredNnz(m: Model, pages: seq<nat>): nat { ClaimedParams(m, pages) * m.quota / 1_000_000 }

  predicate Claimed(m: Model, pages: seq<nat>, i: nat) {
    exists k :: 0 <= k < |pages| && pages[k] < |m.pages| && m.pages[pages[k]].start <= i < m.pages[pages[k]].end
  }

  function Nonzero(body: Body): set<nat> {
    set i | i in body.Entries() && body.Entries()[i] != 0
  }

  predicate BodyOk(m: Model, maxNnz: nat, tx: Tx) {
    && tx.body.Len() == m.Dim()
    && tx.pages != [] && Increasing(tx.pages)
    && (forall k :: 0 <= k < |tx.pages| ==> m.IsActive(tx.pages[k]))
    && (forall i :: i in Nonzero(tx.body) ==> Claimed(m, tx.pages, i))
    && RequiredNnz(m, tx.pages) <= |Nonzero(tx.body)| <= maxNnz
  }

  // ---- the fold's view of a block ----

  function ScoreOf(scores: seq<Score>, txid: nat): nat {
    if scores == [] then 0 else if scores[0].txid == txid then scores[0].value else ScoreOf(scores[1..], txid)
  }

  function ZeroScored(txs: seq<Tx>, scores: seq<Score>): nat {
    if txs == [] then 0
    else (if ScoreOf(scores, txs[0].id) == 0 then 1 else 0) + ZeroScored(txs[1..], scores)
  }

  function ScoreSum(scores: seq<Score>): nat {
    if scores == [] then 0 else scores[0].value + ScoreSum(scores[1..])
  }

  function InputOf(b: Block): Input {
    Input(|b.txs|, ZeroScored(b.txs, b.scores), b.header.prevHash, ScoreSum(b.scores), b.header.proposer)
  }

  function InitPages(rules: Rules, acts: seq<Activation>): (pages: seq<seq<int64>>)
    ensures |pages| == |acts|
  {
    seq(|acts|, k requires 0 <= k < |acts| => rules.pageInit(acts[k].trigger, acts[k].pageId))
  }

  predicate Foldable(rules: Rules, m: Model) {
    rules.params.Valid() && |m.pages| >= rules.params.spec.GenesisPages()
  }

  function MachineOf(rules: Rules): Machine {
    Machine(
      m => rules.params.Valid() && Law(rules.params, m),
      (m: Model) => m.Spans(),
      (b: Block, m: Model) =>
        if Foldable(rules, m) then Fold(m, rules.params, b.header.height, InputOf(b)) else m,
      (b: Block, m: Model) => Aggregate(b.txs, m.Spans(), m.Dim()),
      (b: Block, m: Model) =>
        if Foldable(rules, m)
        then InitPages(rules, FoldActivations(m, rules.params, b.header.height, InputOf(b))) else [],
      (b: Block, m: Model) => forall t :: t in b.txs ==> BodyOk(m, rules.maxNnz, t),
      rules.check)
  }

  lemma {:induction false} OneNewSpan(off: nat, page: seq<int64>)
    ensures NewSpans(off, [page]) == [Span(off, off + |page|)] && Flat([page]) == page
  {
    assert [page][1..] == [];
    assert NewSpans(off, [page]) == [Span(off, off + |page|)] + NewSpans(off + |page|, []);
  }

  lemma {:induction false} TableIsTiled(p: Params, m: Model)
    requires p.Valid() && Law(p, m)
    ensures Tiled(m.Spans()) && m.Spans() != [] && EndOf(m.Spans()) == m.Dim()
  {
    Tiles(p, m);
  }

  /** The initialised pages of a table extension, as appended spans. */
  lemma {:induction false} PagesAppend(rules: Rules, m: Model, t: Model, acts: seq<Activation>)
    requires rules.Valid() && Extends(rules.params, m, t, acts)
    ensures forall k :: 0 <= k < |acts| ==> InitPages(rules, acts)[k] != []
    ensures t.Spans() == m.Spans() + NewSpans(m.Dim(), InitPages(rules, acts))
  {
    var pages, spans := InitPages(rules, acts), m.Spans();
    if acts == [] {
      assert pages == [] && NewSpans(m.Dim(), []) == [] && spans + [] == spans;
    } else {
      assert pages == [pages[0]];
      OneNewSpan(m.Dim(), pages[0]);
    }
  }

  /** What a fold appends, as the machine's tails. */
  lemma {:induction false} TailsAppend(rules: Rules, m: Model, b: Block)
    requires rules.Valid() && Law(rules.params, m)
    ensures var mc := MachineOf(rules); var pages := mc.tails(b, m);
      && (forall k :: 0 <= k < |pages| ==> pages[k] != [])
      && mc.spans(mc.post(b, m)) == mc.spans(m) + NewSpans(m.Dim(), pages)
  {
    var p, h, input := rules.params, b.header.height, InputOf(b);
    FoldAppends(p, m, h, input);
    PagesAppend(rules, m, Fold(m, p, h, input), FoldActivations(m, p, h, input));
  }

  /** The protocol's rules are a machine: every theorem about the engine holds of them. */
  lemma {:induction false} IsMachine(rules: Rules)
    requires rules.Valid()
    ensures MachineOf(rules).Valid()
  {
    var mc := MachineOf(rules);
    forall m: Model, b: Block | mc.good(m) ensures mc.Steps(m, b) {
      TableIsTiled(rules.params, m);
      FoldKeepsLaw(rules.params, m, b.header.height, InputOf(b));
      TailsAppend(rules, m, b);
    }
  }

  /** validate_block's transition: the dense per-page trimmed mean, then one initialised page per activation. */
  function DenseStep(rules: Rules, w: seq<int64>, m: Model, b: Block): seq<int64>
    requires Foldable(rules, m)
  {
    Transition(w, b.txs, m.Spans())
    + Flat(InitPages(rules, FoldActivations(m, rules.params, b.header.height, InputOf(b))))
  }

  /** The machine's sparse step is the reference's dense one, of the new table's length. */
  lemma {:induction false} StepIsDense(rules: Rules, w: seq<int64>, m: Model, b: Block)
    requires rules.Valid() && Law(rules.params, m) && |w| == m.Dim()
    ensures MachineOf(rules).Step(w, m, b) == DenseStep(rules, w, m, b)
    ensures |DenseStep(rules, w, m, b)| == Fold(m, rules.params, b.header.height, InputOf(b)).Dim()
  {
    IsMachine(rules);
    SparseEqualsDense(w, b.txs, m.Spans());
    TableIsTiled(rules.params, m);
    FoldKeepsLaw(rules.params, m, b.header.height, InputOf(b));
    TableIsTiled(rules.params, Fold(m, rules.params, b.header.height, InputOf(b)));
    StepLength(MachineOf(rules), w, m, b);
  }

  /** The genesis table satisfies the law, so a node may start there. */
  lemma {:induction false} GenesisIsGood(rules: Rules)
    requires rules.Valid()
    ensures MachineOf(rules).good(Genesis(rules.params.spec))
  {
    RunLaw(rules.params, []);
  }

  /** replay_head: the dense replay of a chain of blocks with the fold and the growth of each. */
  function DenseReplay(rules: Rules, w: seq<int64>, chain: seq<Block>): (r: (seq<int64>, Model))
    requires rules.params.Valid()
    ensures Foldable(rules, r.1)
  {
    if chain == [] then (w, Genesis(rules.params.spec))
    else
      var r, b := DenseReplay(rules, w, chain[..|chain| - 1]), chain[|chain| - 1];
      FoldGrows(r.1, rules.params, b.header.height, InputOf(b));
      (DenseStep(rules, r.0, r.1, b), Fold(r.1, rules.params, b.header.height, InputOf(b)))
  }

  /** The engine's replay is the reference replay, and the vector always has the table's dimension. */
  lemma {:induction false} ReplayIsDense(rules: Rules, w: seq<int64>, chain: seq<Block>)
    requires rules.Valid() && |w| == Genesis(rules.params.spec).Dim()
    ensures var r := DenseReplay(rules, w, chain);
      && Replay(MachineOf(rules), w, Genesis(rules.params.spec), chain) == r.0
      && ReplayModel(MachineOf(rules), Genesis(rules.params.spec), chain) == r.1
      && Law(rules.params, r.1) && |r.0| == r.1.Dim()
  {
    if chain == [] {
      RunLaw(rules.params, []);
    } else {
      var init, b := chain[..|chain| - 1], chain[|chain| - 1];
      ReplayIsDense(rules, w, init);
      var r := DenseReplay(rules, w, init);
      StepIsDense(rules, r.0, r.1, b);
      FoldKeepsLaw(rules.params, r.1, b.header.height, InputOf(b));
    }
  }

  /**
   * A full node on the protocol's rules: whatever calls brought it here, its one
   * mutated vector is the reference replay of the head's ancestry from genesis.
   */
  lemma {:induction false} NodeFollowsReplay(node: Engine.BlockTree, rules: Rules)
    requires node.Valid() && node.mc == MachineOf(rules) && rules.Valid()
    requires node.blocks[node.genesisHash].model == Genesis(rules.params.spec)
    ensures var chain := ChainTo(node.genesisHash, node.View(), node.head);
      && node.canon == DenseReplay(rules, node.state[node.genesisHash], chain).0
      && node.blocks[node.head].model == DenseReplay(rules, node.state[node.genesisHash], chain).1
      && Law(rules.params, node.blocks[node.head].model)
      && |node.canon| == node.blocks[node.head].model.Dim()
  {
    var g, t := node.genesisHash, node.View();
    StateIsReplay(node.mc, g, t, node.head);
    GenesisIsGood(rules);
    TableIsTiled(rules.params, Genesis(rules.params.spec));
    ReplayIsDense(rules, node.state[g], ChainTo(g, t, node.head));
  }
}
