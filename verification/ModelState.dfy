/** ModelState of rig/model_state.py: the page table and the per-block fold of the capacity controller. */
module ModelState {
  import opened Division
  import opened Capacity
  import opened Aggregation

  /** The frozen shape; expertLen is the number of parameters of one expert page. */
  datatype Spec = Spec(nLayers: nat, nExpertsInitial: nat, backbone: nat, expertLen: nat) {
    /** Genesis experts in the first l layers. */
    function ExpertsBelow(l: nat): nat { if l == 0 then 0 else ExpertsBelow(l - 1) + nExpertsInitial }

    function GenesisPages(): nat { 1 + ExpertsBelow(nLayers) }
  }

  datatype Params = Params(
    spec: Spec, window: nat, knobs: Knobs, announceLead: nat,
    v3Height: nat, v4Height: nat, growthQuorum: nat)
  {
    /** The fold always runs the default damping. */
    predicate Valid() {
      spec.nLayers > 0 && window > 0 && knobs.Valid() && knobs.dampDiv == DAMP_DIV
    }
  }

  datatype Kind = Backbone | Expert(layer: nat, index: nat)
  datatype Page = Page(start: nat, end: nat, kind: Kind, active: bool)
  datatype Growth = Growth(window: nat, layer: nat, trigger: nat)
  datatype Activation = Activation(pageId: nat, layer: nat, expert: nat, trigger: nat)

  datatype State = State(
    pages: seq<Page>, quota: nat, pinned: nat, slack: nat, pending: seq<Growth>, windowId: nat,
    winAccepted: nat, winZeroScored: nat, eventsTotal: nat, winScoreSum: nat, rev: nat,
    winScorers: seq<string>)
  {
    function Dim(): nat { if pages == [] then 0 else pages[|pages| - 1].end }
    predicate IsActive(id: nat) { id < |pages| && pages[id].active }
    function Spans(): (s: seq<Span>)
      ensures |s| == |pages| && forall i {:trigger s[i]} :: 0 <= i < |s| ==> s[i] == Span(pages[i].start, pages[i].end)
    {
      seq(|pages|, i requires 0 <= i < |pages| => Span(pages[i].start, pages[i].end))
    }
  }

  /** What one block feeds the fold. */
  datatype Input = Input(nTxs: nat, zeroScored: nat, prevHash: nat, scoreSum: nat, proposer: string)

  // ---- the page table in closed form ----

  function StartOf(spec: Spec, id: nat): nat {
    if id == 0 then 0 else if id == 1 then spec.backbone else StartOf(spec, id - 1) + spec.expertLen
  }

  /** Genesis experts are laid out layer by layer. */
  function GenesisKind(spec: Spec, j: nat): (k: Kind)
    requires spec.nExpertsInitial > 0
    ensures k.Expert?
  {
    if j < spec.nExpertsInitial then Expert(0, j)
    else
      var k := GenesisKind(spec, j - spec.nExpertsInitial);
      Expert(k.layer + 1, k.index)
  }

  /** Grown experts go round-robin over the layers. */
  function GrownKind(spec: Spec, g: nat): (k: Kind)
    requires spec.nLayers > 0
    ensures k.Expert?
  {
    if g < spec.nLayers then Expert(g, spec.nExpertsInitial)
    else
      var k := GrownKind(spec, g - spec.nLayers);
      Expert(k.layer, k.index + 1)
  }

  lemma {:induction false} ExpertsBelowIs(spec: Spec, l: nat)
    ensures spec.ExpertsBelow(l) == l * spec.nExpertsInitial
  {
    if l > 0 { ExpertsBelowIs(spec, l - 1); }
  }

  lemma {:induction false} ExpertsBelowMonotone(spec: Spec, l: nat, m: nat)
    requires l <= m
    ensures spec.ExpertsBelow(l) <= spec.ExpertsBelow(m)
  {
    if l < m { ExpertsBelowMonotone(spec, l, m - 1); }
  }

  function KindOf(spec: Spec, id: nat): Kind
    requires spec.nLayers > 0 || id < spec.GenesisPages()
  {
    if id == 0 then Backbone
    else if id < spec.GenesisPages() then
      ExpertsBelowIs(spec, spec.nLayers);
      GenesisKind(spec, id - 1)
    else GrownKind(spec, id - spec.GenesisPages())
  }

  lemma {:induction false} GenesisKindClosed(spec: Spec, j: nat)
    requires spec.nExpertsInitial > 0
    ensures GenesisKind(spec, j) == Expert(j / spec.nExpertsInitial, j % spec.nExpertsInitial)
  {
    var n := spec.nExpertsInitial;
    if j >= n {
      GenesisKindClosed(spec, j - n);
      AddDivisor(j - n, n);
    } else {
      DivMod(0, n, j);
    }
  }

  lemma {:induction false} GrownKindClosed(spec: Spec, g: nat)
    requires spec.nLayers > 0
    ensures GrownKind(spec, g) == Expert(g % spec.nLayers, spec.nExpertsInitial + g / spec.nLayers)
  {
    var n := spec.nLayers;
    if g >= n {
      GrownKindClosed(spec, g - n);
      AddDivisor(g - n, n);
    } else {
      DivMod(0, n, g);
    }
  }

  function PageAt(spec: Spec, id: nat): Page
    requires spec.nLayers > 0 || id < spec.GenesisPages()
  {
    Page(StartOf(spec, id), StartOf(spec, id + 1), KindOf(spec, id), true)
  }

  function GenesisTable(spec: Spec): (pages: seq<Page>)
    ensures |pages| == spec.GenesisPages()
  {
    seq(spec.GenesisPages(), id requires 0 <= id < spec.GenesisPages() => PageAt(spec, id))
  }

  function Genesis(spec: Spec): State {
    State(GenesisTable(spec), QUOTA_ONE_4DP, 0, 0, [], 0, 0, 0, 0, 0, 2, [])
  }

  /** ModelState.genesis: the two nested loops lay the table out by running offset. */
  method BuildGenesis(spec: Spec) returns (pages: seq<Page>)
    ensures pages == GenesisTable(spec)
  {
    pages := [Page(0, spec.backbone, Backbone, true)];
    var off := spec.backbone;
    for l := 0 to spec.nLayers
      invariant |pages| == 1 + spec.ExpertsBelow(l) <= spec.GenesisPages()
      invariant off == StartOf(spec, |pages|)
      invariant forall id :: 0 <= id < |pages| ==> pages[id] == PageAt(spec, id)
    {
      ExpertsBelowMonotone(spec, l + 1, spec.nLayers);
      ExpertsBelowIs(spec, l);
      for e := 0 to spec.nExpertsInitial
        invariant |pages| == 1 + spec.ExpertsBelow(l) + e <= spec.GenesisPages()
        invariant off == StartOf(spec, |pages|)
        invariant forall id :: 0 <= id < |pages| ==> pages[id] == PageAt(spec, id)
      {
        DivMod(l, spec.nExpertsInitial, e);
        GenesisKindClosed(spec, |pages| - 1);
        pages := pages + [Page(off, off + spec.expertLen, Expert(l, e), true)];
        off := off + spec.expertLen;
      }
    }
  }

  // ---- the fold ----

  /** Accumulate a block into the open window. */
  function Accumulate(s: State, p: Params, height: nat, b: Input): State {
    var rev := if height >= p.v4Height then 4 else if height >= p.v3Height then 3 else s.rev;
    var counts := rev >= 4 && b.scoreSum > 0 && b.proposer != "" && b.proposer !in s.winScorers
                  && |s.winScorers| < p.growthQuorum;
    s.(rev := rev,
       winAccepted := s.winAccepted + b.nTxs,
       winZeroScored := s.winZeroScored + b.zeroScored,
       winScoreSum := if rev >= 3 then s.winScoreSum + b.scoreSum else s.winScoreSum,
       winScorers := if counts then s.winScorers + [b.proposer] else s.winScorers)
  }

  /** One past the largest expert index of a layer (zero when the layer has none). */
  function NextExpert(pages: seq<Page>, layer: nat): nat {
    if pages == [] then 0
    else
      var rest, last := NextExpert(pages[..|pages| - 1], layer), pages[|pages| - 1].kind;
      if last.Expert? && last.layer == layer && last.index >= rest then last.index + 1 else rest
  }

  function NewPage(pages: seq<Page>, layer: nat, spec: Spec): Page
    requires pages != []
  {
    var start := pages[|pages| - 1].end;
    Page(start, start + spec.expertLen, Expert(layer, NextExpert(pages, layer)), true)
  }

  function DueGrowth(pending: seq<Growth>, window: nat): seq<Growth> {
    if pending == [] then []
    else (if pending[0].window <= window then [pending[0]] else []) + DueGrowth(pending[1..], window)
  }

  function LaterGrowth(pending: seq<Growth>, window: nat): seq<Growth> {
    if pending == [] then []
    else (if pending[0].window > window then [pending[0]] else []) + LaterGrowth(pending[1..], window)
  }

  /** Of one event, all is due or all is later. */
  lemma {:induction false} OneEvent(e: Growth, window: nat)
    ensures DueGrowth([e], window) == if e.window <= window then [e] else []
    ensures LaterGrowth([e], window) == if e.window <= window then [] else [e]
  {
    assert [e][1..] == [] && DueGrowth([], window) == [] && LaterGrowth([], window) == [];
  }

  function Append(pages: seq<Page>, due: seq<Growth>, spec: Spec): seq<Page>
    requires pages != []
    decreases |due|
  {
    if due == [] then pages else Append(pages + [NewPage(pages, due[0].layer, spec)], due[1..], spec)
  }

  function Activations(pages: seq<Page>, due: seq<Growth>, spec: Spec): seq<Activation>
    requires pages != []
    decreases |due|
  {
    if due == [] then []
    else
      var page := NewPage(pages, due[0].layer, spec);
      [Activation(|pages|, due[0].layer, page.kind.index, due[0].trigger)]
      + Activations(pages + [page], due[1..], spec)
  }

  /** The window's staleness signal; from rev 3 and rev 4 it encodes the learning and quorum gates. */
  function Staleness(s: State, p: Params): nat {
    if s.rev >= 4 then (if |s.winScorers| >= p.growthQuorum then 0 else 10_000)
    else if s.rev >= 3 then (if s.winScoreSum > 0 then 0 else 10_000)
    else s.winZeroScored * 10_000 / (if s.winAccepted < 1 then 1 else s.winAccepted)
  }

  /** The least frozen page id at or above from, or |pages|. */
  function FirstFrozen(pages: seq<Page>, from: nat): (i: nat)
    requires from <= |pages|
    ensures from <= i <= |pages| && (i < |pages| ==> !pages[i].active)
    decreases |pages| - from
  {
    if from == |pages| || !pages[from].active then from else FirstFrozen(pages, from + 1)
  }

  /** One past the greatest active page id in [from, end), or from when there is none. */
  function LastActive(pages: seq<Page>, from: nat, end: nat): (i: nat)
    requires from <= end <= |pages|
    ensures from <= i <= end && (i > from ==> pages[i - 1].active)
    decreases end
  {
    if end == from || pages[end - 1].active then end else LastActive(pages, from, end - 1)
  }

  lemma {:induction false} FirstFrozenLeast(pages: seq<Page>, from: nat, j: nat)
    requires from <= |pages| && from <= j < FirstFrozen(pages, from)
    ensures pages[j].active
    decreases |pages| - from
  {
    if j > from { FirstFrozenLeast(pages, from + 1, j); }
  }

  lemma {:induction false} LastActiveGreatest(pages: seq<Page>, from: nat, end: nat, j: nat)
    requires from <= end <= |pages| && LastActive(pages, from, end) <= j < end
    ensures !pages[j].active
    decreases end
  {
    if j < end - 1 { LastActiveGreatest(pages, from, end - 1, j); }
  }

  function SetActive(pages: seq<Page>, i: nat, active: bool): (r: seq<Page>)
    requires i < |pages|
    ensures |r| == |pages|
  {
    pages[i := pages[i].(active := active)]
  }

  /** Steps 1: open the window and append the pages that are due. */
  function OpenWindow(s: State, p: Params): State
    requires s.pages != []
  {
    var window := s.windowId + 1;
    s.(windowId := window,
       pages := Append(s.pages, DueGrowth(s.pending, window), p.spec),
       pending := LaterGrowth(s.pending, window))
  }

  /** x modulo n, counted down (CycleIsMod). */
  function Cycle(x: nat, n: nat): nat
    requires n > 0
  {
    if x < n then x else Cycle(x - n, n)
  }

  lemma {:induction false} CycleIsMod(x: nat, n: nat)
    requires n > 0
    ensures Cycle(x, n) == x % n
  {
    if x >= n {
      CycleIsMod(x - n, n);
      AddDivisor(x - n, n);
    } else {
      DivMod(0, n, x);
    }
  }

  /** Step 2: thaw before growth, then decline; grown pages freeze newest first. */
  function ActOn(s: State, p: Params, d: Decision, prevHash: nat): State
    requires p.spec.nLayers > 0 && |s.pages| >= p.spec.GenesisPages()
  {
    var base := p.spec.GenesisPages();
    var frozen, active := FirstFrozen(s.pages, base), LastActive(s.pages, base, |s.pages|);
    var thaw := d.thawOk && frozen < |s.pages|;
    var grow := !thaw && d.schedule && s.pending == [];
    var freeze := d.freeze && active > base;
    var thawed := if thaw then SetActive(s.pages, frozen, true) else s.pages;
    s.(pages := if freeze then SetActive(thawed, active - 1, false) else thawed,
       quota := if grow then (p.knobs.quotaMin + p.knobs.quotaMax) / 2 else d.quota,
       pinned := if thaw || grow then 0 else d.pinned,
       slack := if freeze then 0 else d.slack,
       pending := if grow
                  then [Growth(s.windowId + p.announceLead, Cycle(s.eventsTotal, p.spec.nLayers), prevHash)]
                  else s.pending,
       eventsTotal := if grow then s.eventsTotal + 1 else s.eventsTotal)
  }

  function ResetWindow(s: State): State {
    s.(winAccepted := 0, winZeroScored := 0, winScoreSum := 0, winScorers := [])
  }

  function WindowDecision(s: State, p: Params): Decision
    requires p.Valid()
  {
    Decide(s.quota, s.pinned, s.slack, s.winAccepted, Staleness(s, p), p.knobs)
  }

  lemma {:induction false} AppendGrows(pages: seq<Page>, due: seq<Growth>, spec: Spec)
    requires pages != []
    ensures |Append(pages, due, spec)| == |pages| + |due| && pages <= Append(pages, due, spec)
    decreases |due|
  {
    if due != [] { AppendGrows(pages + [NewPage(pages, due[0].layer, spec)], due[1..], spec); }
  }

  /** A window boundary, given the decision. */
  function Conclude(s: State, p: Params, d: Decision, prevHash: nat): State
    requires p.Valid() && |s.pages| >= p.spec.GenesisPages()
  {
    AppendGrows(s.pages, DueGrowth(s.pending, s.windowId + 1), p.spec);
    ResetWindow(ActOn(OpenWindow(s, p), p, d, prevHash))
  }

  /** A window boundary. */
  function Boundary(s: State, p: Params, prevHash: nat): State
    requires p.Valid() && |s.pages| >= p.spec.GenesisPages()
  {
    Conclude(s, p, WindowDecision(s, p), prevHash)
  }

  /** height is a positive multiple of the window length. */
  predicate AtBoundary(p: Params, height: nat)
    requires p.window > 0
  {
    height > 0 && Cycle(height, p.window) == 0
  }

  function Fold(s: State, p: Params, height: nat, b: Input): State
    requires p.Valid() && |s.pages| >= p.spec.GenesisPages()
  {
    var a := Accumulate(s, p, height, b);
    if AtBoundary(p, height) then Boundary(a, p, b.prevHash) else a
  }

  function FoldActivations(s: State, p: Params, height: nat, b: Input): seq<Activation>
    requires p.Valid() && |s.pages| >= p.spec.GenesisPages()
  {
    if AtBoundary(p, height) then Activations(s.pages, DueGrowth(s.pending, s.windowId + 1), p.spec) else []
  }

  lemma {:induction false} AppendOne(pages: seq<Page>, due: seq<Growth>, spec: Spec)
    requires pages != [] && due != []
    ensures var page := NewPage(pages, due[0].layer, spec);
      && Append(pages, due, spec) == Append(pages + [page], due[1..], spec)
      && Activations(pages, due, spec) ==
         [Activation(|pages|, due[0].layer, page.kind.index, due[0].trigger)]
         + Activations(pages + [page], due[1..], spec)
  {
  }

  /** The activation loop: one new page per due event. */
  method AppendPages(pages0: seq<Page>, due: seq<Growth>, spec: Spec)
    returns (pages: seq<Page>, activations: seq<Activation>)
    requires pages0 != []
    ensures pages == Append(pages0, due, spec) && activations == Activations(pages0, due, spec)
  {
    pages, activations := pages0, [];
    for i := 0 to |due|
      invariant pages != []
      invariant Append(pages, due[i..], spec) == Append(pages0, due, spec)
      invariant activations + Activations(pages, due[i..], spec) == Activations(pages0, due, spec)
    {
      AppendOne(pages, due[i..], spec);
      assert due[i..][1..] == due[i + 1..];
      var page := NewPage(pages, due[i].layer, spec);
      activations := activations + [Activation(|pages|, due[i].layer, page.kind.index, due[i].trigger)];
      pages := pages + [page];
    }
    assert due[|due|..] == [];
  }

  /** fold, step by step on a working copy. */
  method FoldBlock(state: State, p: Params, height: nat, b: Input)
    returns (s: State, activations: seq<Activation>)
    requires p.Valid() && |state.pages| >= p.spec.GenesisPages()
    ensures s == Fold(state, p, height, b) && activations == FoldActivations(state, p, height, b)
  {
    s, activations := Accumulate(state, p, height, b), [];
    if !AtBoundary(p, height) { return; }
    var window := s.windowId + 1;
    var due := DueGrowth(s.pending, window);
    AppendGrows(s.pages, due, p.spec);
    var pages;
    pages, activations := AppendPages(s.pages, due, p.spec);
    var afterOpen := s.(windowId := window, pages := pages, pending := LaterGrowth(s.pending, window));
    var d := Decide(s.quota, s.pinned, s.slack, s.winAccepted, Staleness(s, p), p.knobs);
    s := ResetWindow(ActOn(afterOpen, p, d, b.prevHash));
  }

  lemma {:induction false} ConcludeGrows(s: State, p: Params, d: Decision, prevHash: nat)
    requires p.Valid() && |s.pages| >= p.spec.GenesisPages()
    ensures |Conclude(s, p, d, prevHash).pages| >= |s.pages|
  {
    AppendGrows(s.pages, DueGrowth(s.pending, s.windowId + 1), p.spec);
  }

  lemma {:induction false} FoldGrows(s: State, p: Params, height: nat, b: Input)
    requires p.Valid() && |s.pages| >= p.spec.GenesisPages()
    ensures |Fold(s, p, height, b).pages| >= |s.pages|
  {
    var a := Accumulate(s, p, height, b);
    if AtBoundary(p, height) { ConcludeGrows(a, p, WindowDecision(a, p), b.prevHash); }
  }

  /** A run of the chain: block i of the sequence has height i + 1. */
  function Run(p: Params, blocks: seq<Input>): (s: State)
    requires p.Valid()
    ensures |s.pages| >= p.spec.GenesisPages()
  {
    if blocks == [] then Genesis(p.spec)
    else
      var s := Run(p, blocks[..|blocks| - 1]);
      FoldGrows(s, p, |blocks|, blocks[|blocks| - 1]);
      Fold(s, p, |blocks|, blocks[|blocks| - 1])
  }
}
