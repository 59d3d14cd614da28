/** What every run of the fold keeps about the page table. */
module PageTableLaw {
  import opened Division
  import opened Capacity
  import opened Aggregation
  import opened ModelState

  /** The table is the closed-form layout, status bits aside, and genesis pages are active. */
  predicate Table(p: Params, s: State)
    requires p.Valid()
  {
    && |s.pages| >= p.spec.GenesisPages()
    && LaidOut(s.pages, p.spec)
    && forall id :: 0 <= id < p.spec.GenesisPages() ==> s.pages[id].active
  }

  predicate LaidOut(pages: seq<Page>, spec: Spec)
    requires spec.nLayers > 0
  {
    Bare(pages) == Layout(spec, |pages|)
  }

  /** The table without its status bits. */
  function Bare(pages: seq<Page>): (r: seq<Page>)
    ensures |r| == |pages|
  {
    seq(|pages|, id requires 0 <= id < |pages| => pages[id].(active := true))
  }

  /** The closed-form table of n pages. */
  function Layout(spec: Spec, n: nat): (r: seq<Page>)
    requires spec.nLayers > 0
    ensures |r| == n
  {
    seq(n, id requires 0 <= id < n => PageAt(spec, id))
  }

  lemma {:induction false} LaidOutAt(pages: seq<Page>, spec: Spec, id: nat)
    requires spec.nLayers > 0 && LaidOut(pages, spec) && id < |pages|
    ensures pages[id].(active := true) == PageAt(spec, id)
  {
    assert Bare(pages)[id] == Layout(spec, |pages|)[id];
  }

  lemma {:induction false} BareStatus(pages: seq<Page>, i: nat, active: bool)
    requires i < |pages|
    ensures Bare(SetActive(pages, i, active)) == Bare(pages)
  {
  }

  lemma {:induction false} BareAppend(spec: Spec, pages: seq<Page>, page: Page)
    requires spec.nLayers > 0 && LaidOut(pages, spec) && page == PageAt(spec, |pages|)
    ensures LaidOut(pages + [page], spec)
  {
    assert Bare(pages + [page]) == Bare(pages) + [page];
    assert Layout(spec, |pages| + 1) == Layout(spec, |pages|) + [page];
  }

  /** Spans and dimension do not see status bits. */
  lemma {:induction false} SameSpans(s: State, t: State)
    requires Bare(s.pages) == Bare(t.pages)
    ensures |s.pages| == |t.pages| && s.Spans() == t.Spans() && s.Dim() == t.Dim()
  {
    assert |s.pages| == |Bare(s.pages)| == |t.pages|;
    forall i | 0 <= i < |s.pages|
      ensures s.pages[i].start == t.pages[i].start && s.pages[i].end == t.pages[i].end
    {
      assert Bare(s.pages)[i] == Bare(t.pages)[i];
    }
  }

  function Grown(p: Params, s: State): int { |s.pages| - p.spec.GenesisPages() }

  /** Growth events are conserved: each is a grown page or the single pending one. */
  predicate Bookkept(p: Params, s: State)
    requires p.Valid()
  {
    && |s.pending| <= 1
    && Grown(p, s) + |s.pending| == s.eventsTotal
    && (s.pending != [] ==>
          && s.eventsTotal > 0 && s.pending[0].layer == Cycle(s.eventsTotal - 1, p.spec.nLayers)
          && s.windowId <= s.pending[0].window <= s.windowId + p.announceLead)
  }

  predicate Law(p: Params, s: State)
    requires p.Valid()
  {
    Table(p, s) && Bookkept(p, s) && p.knobs.quotaMin <= s.quota <= p.knobs.quotaMax
  }

  // ---- the next expert index of a layer ----

  lemma {:induction false} NextExpertBelow(pages: seq<Page>, layer: nat, n: nat)
    requires forall id :: 0 <= id < |pages| && pages[id].kind.Expert? && pages[id].kind.layer == layer ==>
      pages[id].kind.index < n
    ensures NextExpert(pages, layer) <= n
  {
    if pages != [] { NextExpertBelow(pages[..|pages| - 1], layer, n); }
  }

  lemma {:induction false} NextExpertAbove(pages: seq<Page>, layer: nat, id: nat)
    requires id < |pages| && pages[id].kind.Expert? && pages[id].kind.layer == layer
    ensures NextExpert(pages, layer) > pages[id].kind.index
  {
    if id < |pages| - 1 { NextExpertAbove(pages[..|pages| - 1], layer, id); }
  }

  /** How many of g round-robin growth events landed on a layer. */
  function GrownIn(g: nat, layer: nat, layers: nat): nat
    requires layer < layers
  {
    (g + layers - 1 - layer) / layers
  }

  lemma {:induction false} GrownInBounds(g: nat, layer: nat, layers: nat, j: nat)
    requires layer < layers && j < g && j % layers == layer
    ensures j / layers < GrownIn(g, layer, layers)
  {
    assert j == layers * (j / layers) + layer;
    DivideAtLeast(g + layers - 1 - layer, layers, j / layers + 1);
  }

  lemma {:induction false} LastGrownIn(g: nat, layer: nat, layers: nat) returns (j: nat)
    requires layer < layers && GrownIn(g, layer, layers) > 0
    ensures j < g && j % layers == layer && j / layers == GrownIn(g, layer, layers) - 1
  {
    var c := GrownIn(g, layer, layers);
    j := (c - 1) * layers + layer;
    assert c * layers <= g + layers - 1 - layer;
    DivMod(c - 1, layers, layer);
  }

  lemma {:induction false} IndexBelow(spec: Spec, id: nat, g: nat, layer: nat)
    requires spec.nLayers > 0 && layer < spec.nLayers && id < spec.GenesisPages() + g
    requires KindOf(spec, id).Expert? && KindOf(spec, id).layer == layer
    ensures KindOf(spec, id).index < spec.nExpertsInitial + GrownIn(g, layer, spec.nLayers)
  {
    if id >= spec.GenesisPages() {
      GrownKindClosed(spec, id - spec.GenesisPages());
      GrownInBounds(g, layer, spec.nLayers, id - spec.GenesisPages());
    } else {
      ExpertsBelowIs(spec, spec.nLayers);
      GenesisKindClosed(spec, id - 1);
    }
  }

  lemma {:induction false} GenesisExpert(spec: Spec, layer: nat, e: nat) returns (id: nat)
    requires layer < spec.nLayers && e < spec.nExpertsInitial
    ensures 0 < id < spec.GenesisPages() && KindOf(spec, id) == Expert(layer, e)
  {
    id := 1 + (layer * spec.nExpertsInitial + e);
    ExpertsBelowIs(spec, layer);
    ExpertsBelowMonotone(spec, layer + 1, spec.nLayers);
    DivMod(layer, spec.nExpertsInitial, e);
    GenesisKindClosed(spec, id - 1);
  }

  lemma {:induction false} GrownExpert(spec: Spec, layer: nat, q: nat) returns (id: nat)
    requires layer < spec.nLayers
    ensures id == spec.GenesisPages() + (q * spec.nLayers + layer)
    ensures KindOf(spec, id) == Expert(layer, spec.nExpertsInitial + q)
  {
    var g := q * spec.nLayers + layer;
    id := spec.GenesisPages() + g;
    DivMod(q, spec.nLayers, layer);
    GrownKindClosed(spec, g);
  }

  lemma {:induction false} LastExpert(spec: Spec, g: nat, layer: nat) returns (id: nat)
    requires layer < spec.nLayers && spec.nExpertsInitial + GrownIn(g, layer, spec.nLayers) > 0
    ensures id < spec.GenesisPages() + g
    ensures KindOf(spec, id) == Expert(layer, spec.nExpertsInitial + GrownIn(g, layer, spec.nLayers) - 1)
  {
    if GrownIn(g, layer, spec.nLayers) > 0 {
      var j := LastGrownIn(g, layer, spec.nLayers);
      id := spec.GenesisPages() + j;
      GrownKindClosed(spec, j);
    } else {
      id := GenesisExpert(spec, layer, spec.nExpertsInitial - 1);
    }
  }

  /** With g grown pages, a layer holds exactly its initial experts and its share of the growth. */
  lemma {:induction false} ExpertCount(p: Params, pages: seq<Page>, layer: nat)
    requires p.Valid() && |pages| >= p.spec.GenesisPages() && LaidOut(pages, p.spec)
    requires layer < p.spec.nLayers
    ensures NextExpert(pages, layer) ==
      p.spec.nExpertsInitial + GrownIn(|pages| - p.spec.GenesisPages(), layer, p.spec.nLayers)
  {
    var spec, g := p.spec, |pages| - p.spec.GenesisPages();
    var n := spec.nExpertsInitial + GrownIn(g, layer, spec.nLayers);
    Kinds(p, pages);
    forall id | 0 <= id < |pages| && pages[id].kind.Expert? && pages[id].kind.layer == layer
      ensures pages[id].kind.index < n
    {
      IndexBelow(spec, id, g, layer);
    }
    NextExpertBelow(pages, layer, n);
    if n > 0 {
      var id := LastExpert(spec, g, layer);
      NextExpertAbove(pages, layer, id);
    }
  }

  lemma {:induction false} Kinds(p: Params, pages: seq<Page>)
    requires p.Valid() && LaidOut(pages, p.spec)
    ensures forall id :: 0 <= id < |pages| ==> pages[id].kind == KindOf(p.spec, id)
  {
    forall id | 0 <= id < |pages| ensures pages[id].kind == KindOf(p.spec, id) {
      LaidOutAt(pages, p.spec, id);
    }
  }

  lemma {:induction false} RoundRobin(g: nat, layers: nat)
    requires layers > 0
    ensures GrownIn(g, g % layers, layers) == g / layers
  {
    assert g == layers * (g / layers) + g % layers;
    DivMod(g / layers, layers, layers - 1);
    assert g + layers - 1 - g % layers == (g / layers) * layers + (layers - 1);
  }

  // ---- preservation ----

  lemma {:induction false} NextGrownKind(p: Params, pages: seq<Page>, g: nat)
    requires p.Valid() && |pages| == p.spec.GenesisPages() + g && LaidOut(pages, p.spec)
    ensures var layer := Cycle(g, p.spec.nLayers);
      Expert(layer, NextExpert(pages, layer)) == GrownKind(p.spec, g)
  {
    var n := p.spec.nLayers;
    CycleIsMod(g, n);
    GrownKindClosed(p.spec, g);
    assert NextExpert(pages, g % n) == p.spec.nExpertsInitial + g / n by {
      ExpertCount(p, pages, g % n);
      RoundRobin(g, n);
    }
  }

  lemma {:induction false} AppendedPage(p: Params, pages: seq<Page>, layer: nat)
    requires p.Valid() && |pages| >= p.spec.GenesisPages() && LaidOut(pages, p.spec)
    requires layer == Cycle(|pages| - p.spec.GenesisPages(), p.spec.nLayers)
    ensures NewPage(pages, layer, p.spec) == PageAt(p.spec, |pages|)
  {
    var n, g := |pages|, |pages| - p.spec.GenesisPages();
    assert NewPage(pages, layer, p.spec).kind == KindOf(p.spec, n) by { NextGrownKind(p, pages, g); }
    assert pages[n - 1].end == StartOf(p.spec, n) by { LaidOutAt(pages, p.spec, n - 1); }
    assert StartOf(p.spec, n + 1) == StartOf(p.spec, n) + p.spec.expertLen;
  }

  /** With at most one pending event, a window either opens it or leaves it. */
  lemma {:induction false} OpenSplits(pending: seq<Growth>, window: nat)
    requires |pending| <= 1
    ensures pending != [] && pending[0].window <= window ==>
      DueGrowth(pending, window) == pending && LaterGrowth(pending, window) == []
    ensures !(pending != [] && pending[0].window <= window) ==>
      DueGrowth(pending, window) == [] && LaterGrowth(pending, window) == pending
  {
    if pending != [] {
      assert pending == [pending[0]];
      OneEvent(pending[0], window);
    }
  }

  lemma {:induction false} AppendSingle(pages: seq<Page>, due: seq<Growth>, spec: Spec)
    requires pages != [] && |due| == 1
    ensures Append(pages, due, spec) == pages + [NewPage(pages, due[0].layer, spec)]
    ensures |Activations(pages, due, spec)| == 1 && Activations(pages, due, spec)[0].pageId == |pages|
  {
    AppendOne(pages, due, spec);
    assert due[1..] == [];
  }

  lemma {:induction false} OpenKeepsLaw(p: Params, s: State)
    requires p.Valid() && Law(p, s)
    ensures var t := OpenWindow(s, p);
      && Table(p, t) && Bookkept(p, t)
      && t.pages[..|s.pages|] == s.pages
      && (t.pending != [] ==> t.pending == s.pending && t.pages == s.pages && t.pending[0].window > t.windowId)
      && (t.pending == [] && s.pending != [] ==> t.pages == s.pages + [PageAt(p.spec, |s.pages|)])
      && (s.pending == [] ==> t.pages == s.pages)
  {
    var window := s.windowId + 1;
    OpenSplits(s.pending, window);
    if s.pending != [] && s.pending[0].window <= window {
      AppendedPage(p, s.pages, s.pending[0].layer);
      BareAppend(p.spec, s.pages, NewPage(s.pages, s.pending[0].layer, p.spec));
      AppendSingle(s.pages, s.pending, p.spec);
    }
  }

  /** Acting on any decision changes no page but its status. */
  lemma {:induction false} ActKeepsShape(p: Params, s: State, d: Decision, prevHash: nat)
    requires p.Valid() && Table(p, s)
    ensures Bare(ActOn(s, p, d, prevHash).pages) == Bare(s.pages)
    ensures Table(p, ActOn(s, p, d, prevHash))
  {
    var base := p.spec.GenesisPages();
    var frozen, active := FirstFrozen(s.pages, base), LastActive(s.pages, base, |s.pages|);
    if frozen < |s.pages| { BareStatus(s.pages, frozen, true); }
    var thawed := if d.thawOk && frozen < |s.pages| then SetActive(s.pages, frozen, true) else s.pages;
    if active > base { BareStatus(thawed, active - 1, false); }
    var u := ActOn(s, p, d, prevHash);
    assert |u.pages| == |Bare(u.pages)| == |s.pages|;
    assert forall id :: 0 <= id < base ==> u.pages[id] == s.pages[id];
  }

  lemma {:induction false} ActKeepsLaw(p: Params, s: State, d: Decision, prevHash: nat)
    requires p.Valid() && Table(p, s) && Bookkept(p, s)
    requires p.knobs.quotaMin <= d.quota <= p.knobs.quotaMax
    ensures Law(p, ActOn(s, p, d, prevHash))
  {
    ActKeepsShape(p, s, d, prevHash);
  }

  lemma {:induction false} ConcludeKeepsLaw(p: Params, s: State, d: Decision, prevHash: nat)
    requires p.Valid() && Law(p, s) && p.knobs.quotaMin <= d.quota <= p.knobs.quotaMax
    ensures Law(p, Conclude(s, p, d, prevHash))
  {
    OpenKeepsLaw(p, s);
    ActKeepsLaw(p, OpenWindow(s, p), d, prevHash);
    AppendGrows(s.pages, DueGrowth(s.pending, s.windowId + 1), p.spec);
    ResetKeepsLaw(p, ActOn(OpenWindow(s, p), p, d, prevHash));
  }

  lemma {:induction false} ResetKeepsLaw(p: Params, s: State)
    requires p.Valid() && Law(p, s)
    ensures Law(p, ResetWindow(s))
  {
  }

  lemma {:induction false} BoundaryKeepsLaw(p: Params, s: State, prevHash: nat)
    requires p.Valid() && Law(p, s)
    ensures Law(p, Boundary(s, p, prevHash))
  {
    DecideBand(s.quota, s.pinned, s.slack, s.winAccepted, Staleness(s, p), p.knobs);
    ConcludeKeepsLaw(p, s, WindowDecision(s, p), prevHash);
  }

  lemma {:induction false} FoldKeepsLaw(p: Params, s: State, height: nat, b: Input)
    requires p.Valid() && Law(p, s)
    ensures Law(p, Fold(s, p, height, b))
  {
    if AtBoundary(p, height) { BoundaryKeepsLaw(p, Accumulate(s, p, height, b), b.prevHash); }
  }

  /** The law holds in every reachable state. */
  lemma {:induction false} RunLaw(p: Params, blocks: seq<Input>)
    requires p.Valid()
    ensures Law(p, Run(p, blocks))
  {
    if blocks != [] {
      RunLaw(p, blocks[..|blocks| - 1]);
      FoldKeepsLaw(p, Run(p, blocks[..|blocks| - 1]), |blocks|, blocks[|blocks| - 1]);
    }
  }

  // ---- what the closed form gives ----

  lemma {:induction false} StartMonotone(spec: Spec, i: nat, j: nat)
    requires i <= j
    ensures StartOf(spec, i) <= StartOf(spec, j)
    decreases j
  {
    if i < j {
      StartMonotone(spec, i, j - 1);
    }
  }

  lemma {:induction false} StartIs(spec: Spec, id: nat)
    ensures id > 0 ==> StartOf(spec, id) == spec.backbone + (id - 1) * spec.expertLen
  {
    if id > 1 { StartIs(spec, id - 1); }
  }

  /** Every page's span, by number: the backbone first, then one page of expertLen per expert. */
  lemma {:induction false} SpansAre(p: Params, s: State, id: nat)
    requires p.Valid() && Table(p, s) && id < |s.pages|
    ensures s.pages[id].start == if id == 0 then 0 else p.spec.backbone + (id - 1) * p.spec.expertLen
    ensures s.pages[id].end == p.spec.backbone + id * p.spec.expertLen
  {
    LaidOutAt(s.pages, p.spec, id);
    StartIs(p.spec, id);
    StartIs(p.spec, id + 1);
  }

  /** Every page's expert: the genesis experts layer by layer, the grown ones round-robin over the layers. */
  lemma {:induction false} KindsAre(p: Params, s: State, id: nat, layers: nat, first: nat, genesis: nat)
    requires p.Valid() && Table(p, s) && id < |s.pages|
    requires layers == p.spec.nLayers && first == p.spec.nExpertsInitial && genesis == layers * first
    ensures id == 0 ==> s.pages[id].kind == Backbone
    ensures 0 < id <= genesis && first > 0 ==> s.pages[id].kind == Expert((id - 1) / first, (id - 1) % first)
    ensures id > genesis ==>
      s.pages[id].kind == Expert((id - 1 - genesis) % layers, first + (id - 1 - genesis) / layers)
  {
    LaidOutAt(s.pages, p.spec, id);
    ExpertsBelowIs(p.spec, layers);
    if 0 < id <= genesis {
      GenesisKindClosed(p.spec, id - 1);
    } else if id > 0 {
      GrownKindClosed(p.spec, id - p.spec.GenesisPages());
    }
  }

  /** Spans tile [0, Dim) in page order. */
  lemma {:induction false} Tiles(p: Params, s: State)
    requires p.Valid() && Table(p, s)
    ensures s.pages[0].start == 0 && s.Dim() == StartOf(p.spec, |s.pages|)
    ensures forall i :: 0 <= i < |s.pages| - 1 ==> s.pages[i].end == s.pages[i + 1].start
    ensures Fits(s.Spans(), s.Dim())
  {
    forall id | 0 <= id < |s.pages|
      ensures s.pages[id].start == StartOf(p.spec, id) && s.pages[id].end == StartOf(p.spec, id + 1)
    {
      LaidOutAt(s.pages, p.spec, id);
    }
    var spans, dim := s.Spans(), s.Dim();
    forall i | 0 <= i < |spans| ensures spans[i].start <= spans[i].end <= dim {
      StartMonotone(p.spec, i, i + 1);
      StartMonotone(p.spec, i + 1, |spans|);
    }
    forall i, j | 0 <= i < j < |spans| ensures spans[i].end <= spans[j].start {
      StartMonotone(p.spec, i + 1, j);
    }
  }

  /** No two pages are the same expert, and a layer's experts have no gaps. */
  lemma {:induction false} ExpertsUniqueGapFree(p: Params, s: State)
    requires p.Valid() && Table(p, s)
    ensures forall i, j :: 0 <= i < j < |s.pages| ==> s.pages[i].kind != s.pages[j].kind
    ensures forall i, e :: 0 <= i < |s.pages| && s.pages[i].kind.Expert? && 0 <= e < s.pages[i].kind.index ==>
      exists j :: 0 <= j < |s.pages| && s.pages[j].kind == Expert(s.pages[i].kind.layer, e)
  {
    Kinds(p, s.pages);
    forall i, j | 0 <= i < j < |s.pages| ensures s.pages[i].kind != s.pages[j].kind {
      KindInjective(p.spec, i, j);
    }
    forall i, e | 0 <= i < |s.pages| && s.pages[i].kind.Expert? && 0 <= e < s.pages[i].kind.index
      ensures exists j :: 0 <= j < |s.pages| && s.pages[j].kind == Expert(s.pages[i].kind.layer, e)
    {
      var j := LowerExpert(p.spec, i, e);
      assert s.pages[j].kind == Expert(s.pages[i].kind.layer, e);
    }
  }

  lemma {:induction false} DivModJoin(x: nat, n: nat)
    requires n > 0
    ensures x == n * (x / n) + x % n
  {
  }

  lemma {:induction false} KindInjective(spec: Spec, i: nat, j: nat)
    requires spec.nLayers > 0 && i < j
    ensures KindOf(spec, i) != KindOf(spec, j)
  {
    var base, n := spec.GenesisPages(), spec.nExpertsInitial;
    ExpertsBelowIs(spec, spec.nLayers);
    if 0 < i && j < base {
      GenesisKindClosed(spec, i - 1);
      GenesisKindClosed(spec, j - 1);
      DivModDiffer(i - 1, j - 1, n);
    } else if base <= i {
      GrownKindClosed(spec, i - base);
      GrownKindClosed(spec, j - base);
      DivModDiffer(i - base, j - base, spec.nLayers);
    } else if 0 < i {
      GenesisKindClosed(spec, i - 1);
      GrownKindClosed(spec, j - base);
    }
  }

  lemma {:induction false} DivModDiffer(x: nat, y: nat, n: nat)
    requires n > 0 && x != y
    ensures x / n != y / n || x % n != y % n
  {
    DivModJoin(x, n);
    DivModJoin(y, n);
  }

  lemma {:induction false} LowerExpert(spec: Spec, i: nat, e: nat) returns (j: nat)
    requires spec.nLayers > 0 && KindOf(spec, i).Expert? && e < KindOf(spec, i).index
    ensures j < i && KindOf(spec, j) == Expert(KindOf(spec, i).layer, e)
  {
    if i < spec.GenesisPages() {
      j := LowerGenesisExpert(spec, i, e);
    } else if e < spec.nExpertsInitial {
      GrownKindClosed(spec, i - spec.GenesisPages());
      j := GenesisExpert(spec, KindOf(spec, i).layer, e);
    } else {
      j := LowerGrownExpert(spec, i, e - spec.nExpertsInitial);
    }
  }

  lemma {:induction false} LowerGenesisExpert(spec: Spec, i: nat, e: nat) returns (j: nat)
    requires spec.nLayers > 0 && 0 < i < spec.GenesisPages() && e < KindOf(spec, i).index
    ensures j < i && KindOf(spec, j) == Expert(KindOf(spec, i).layer, e)
  {
    var n, layer := spec.nExpertsInitial, KindOf(spec, i).layer;
    ExpertsBelowIs(spec, spec.nLayers);
    GenesisKindClosed(spec, i - 1);
    DivModJoin(i - 1, n);
    j := i - (KindOf(spec, i).index - e);
    assert j - 1 == layer * n + e;
    DivMod(layer, n, e);
    GenesisKindClosed(spec, j - 1);
  }

  lemma {:induction false} SmallerQuotient(g: nat, q: nat, n: nat)
    requires n > 0 && q < g / n
    ensures q * n + g % n < g
  {
    DivModJoin(g, n);
    MulMonotone(n, q + 1, g / n);
  }

  lemma {:induction false} LowerGrownExpert(spec: Spec, i: nat, q: nat) returns (j: nat)
    requires spec.nLayers > 0 && spec.GenesisPages() <= i && spec.nExpertsInitial + q < KindOf(spec, i).index
    ensures j < i && KindOf(spec, j) == Expert(KindOf(spec, i).layer, spec.nExpertsInitial + q)
  {
    var g, layer := i - spec.GenesisPages(), KindOf(spec, i).layer;
    GrownKindClosed(spec, g);
    j := GrownExpert(spec, layer, q);
    SmallerQuotient(g, q, spec.nLayers);
  }

  /** Grown experts are spread evenly: any two layers differ by at most one. */
  lemma {:induction false} LayersBalanced(p: Params, s: State, a: nat, b: nat)
    requires p.Valid() && Table(p, s) && a <= b < p.spec.nLayers
    ensures NextExpert(s.pages, b) <= NextExpert(s.pages, a) <= NextExpert(s.pages, b) + 1
  {
    ExpertCount(p, s.pages, a);
    ExpertCount(p, s.pages, b);
    SharesBalanced(|s.pages| - p.spec.GenesisPages(), a, b, p.spec.nLayers);
  }

  lemma {:induction false} SharesBalanced(g: nat, a: nat, b: nat, n: nat)
    requires a <= b < n
    ensures GrownIn(g, b, n) <= GrownIn(g, a, n) <= GrownIn(g, b, n) + 1
  {
    DivShift(g + n - 1 - b, b - a, n);
  }

  lemma {:induction false} DivShift(x: nat, k: nat, n: nat)
    requires k < n
    ensures x / n <= (x + k) / n <= x / n + 1
  {
    var q, e := x / n, x % n + k;
    assert x + k == q * n + e by { DivModJoin(x, n); }
    if e < n {
      DivMod(q, n, e);
    } else {
      assert x + k == (q + 1) * n + (e - n);
      DivMod(q + 1, n, e - n);
    }
  }

  /** Growth only ever appends: a page keeps its span, layer and expert in every later state. */
  lemma {:induction false} PagesPersist(p: Params, blocks: seq<Input>, n: nat, id: nat)
    requires p.Valid() && n <= |blocks| && id < |Run(p, blocks[..n]).pages|
    ensures id < |Run(p, blocks).pages|
    ensures Run(p, blocks).pages[id].(active := true) == Run(p, blocks[..n]).pages[id].(active := true)
  {
    RunLaw(p, blocks[..n]);
    RunLaw(p, blocks);
    TableGrows(p, blocks, n);
    LaidOutAt(Run(p, blocks).pages, p.spec, id);
    LaidOutAt(Run(p, blocks[..n]).pages, p.spec, id);
  }

  lemma {:induction false} FoldGrowsTable(p: Params, s: State, height: nat, b: Input)
    requires p.Valid() && Law(p, s)
    ensures |s.pages| <= |Fold(s, p, height, b).pages|
  {
    if AtBoundary(p, height) { OpenKeepsLaw(p, Accumulate(s, p, height, b)); }
  }

  lemma {:induction false} TableGrows(p: Params, blocks: seq<Input>, n: nat)
    requires p.Valid() && n <= |blocks|
    ensures |Run(p, blocks[..n]).pages| <= |Run(p, blocks).pages|
  {
    if n < |blocks| {
      var init := blocks[..|blocks| - 1];
      TableGrows(p, init, n);
      assert init[..n] == blocks[..n];
      RunLaw(p, init);
      FoldGrowsTable(p, Run(p, init), |blocks|, blocks[|blocks| - 1]);
    } else {
      assert blocks[..n] == blocks;
    }
  }

  /** t extends the table of s by the pages the activations name, at most one, contiguously. */
  ghost predicate Extends(p: Params, s: State, t: State, acts: seq<Activation>) {
    && |t.pages| == |s.pages| + |acts| && |acts| <= 1
    && (acts == [] ==> t.Dim() == s.Dim() && t.Spans() == s.Spans())
    && (acts != [] ==>
          && acts[0].pageId == |s.pages|
          && t.Spans() == s.Spans() + [Span(s.Dim(), s.Dim() + p.spec.expertLen)]
          && t.Dim() == s.Dim() + p.spec.expertLen)
  }

  /** Status bits and the table's other fields do not matter. */
  lemma {:induction false} ExtendsSame(p: Params, s: State, a: State, u: State, t: State, acts: seq<Activation>)
    requires Extends(p, a, u, acts) && a.pages == s.pages && Bare(t.pages) == Bare(u.pages)
    ensures Extends(p, s, t, acts)
  {
    SameSpans(a, s);
    SameSpans(t, u);
  }

  lemma {:induction false} BoundaryAppends(p: Params, s: State, a: State, prevHash: nat)
    requires p.Valid() && Law(p, a) && a.pages == s.pages && a.pending == s.pending && a.windowId == s.windowId
    ensures Extends(p, s, Boundary(a, p, prevHash),
      Activations(s.pages, DueGrowth(s.pending, s.windowId + 1), p.spec))
  {
    OpenAppends(p, a);
    ConcludeKeepsShape(p, a, WindowDecision(a, p), prevHash);
    ExtendsSame(p, s, a, OpenWindow(a, p), Boundary(a, p, prevHash),
      Activations(a.pages, DueGrowth(a.pending, a.windowId + 1), p.spec));
  }

  lemma {:induction false} AccumulateKeepsLaw(p: Params, s: State, height: nat, b: Input)
    requires p.Valid() && Law(p, s)
    ensures var a := Accumulate(s, p, height, b);
      Law(p, a) && a.pages == s.pages && a.pending == s.pending && a.windowId == s.windowId
  {
  }

  /** A boundary's fold. */
  lemma {:induction false} FoldAppendsAt(p: Params, s: State, height: nat, b: Input)
    requires p.Valid() && Law(p, s) && AtBoundary(p, height)
    ensures Extends(p, s, Fold(s, p, height, b), FoldActivations(s, p, height, b))
  {
    var a := Accumulate(s, p, height, b);
    AccumulateKeepsLaw(p, s, height, b);
    BoundaryAppends(p, s, a, b.prevHash);
    FoldIsBoundary(p, s, height, b);
  }

  lemma {:induction false} FoldIsBoundary(p: Params, s: State, height: nat, b: Input)
    requires p.Valid() && |s.pages| >= p.spec.GenesisPages() && AtBoundary(p, height)
    ensures Fold(s, p, height, b) == Boundary(Accumulate(s, p, height, b), p, b.prevHash)
    ensures FoldActivations(s, p, height, b) == Activations(s.pages, DueGrowth(s.pending, s.windowId + 1), p.spec)
  {
  }

  /** What a fold appends is exactly the activations it reports, one contiguous page each. */
  lemma {:induction false} FoldAppends(p: Params, s: State, height: nat, b: Input)
    requires p.Valid() && Law(p, s)
    ensures Extends(p, s, Fold(s, p, height, b), FoldActivations(s, p, height, b))
  {
    if AtBoundary(p, height) {
      FoldAppendsAt(p, s, height, b);
    } else {
      AccumulateKeepsLaw(p, s, height, b);
      SameSpans(Accumulate(s, p, height, b), s);
    }
  }

  lemma {:induction false} ConcludeKeepsShape(p: Params, a: State, d: Decision, prevHash: nat)
    requires p.Valid() && Law(p, a)
    ensures Bare(Conclude(a, p, d, prevHash).pages) == Bare(OpenWindow(a, p).pages)
  {
    OpenKeepsLaw(p, a);
    ActKeepsShape(p, OpenWindow(a, p), d, prevHash);
  }

  lemma {:induction false} SpansAppend(s: State, t: State, page: Page)
    requires t.pages == s.pages + [page]
    ensures t.Spans() == s.Spans() + [Span(page.start, page.end)] && t.Dim() == page.end
  {
  }

  /** One due event opens exactly one page, where the table ends. */
  lemma {:induction false} OneOpens(p: Params, s: State, due: seq<Growth>, t: State)
    requires s.pages != [] && |due| == 1 && t.pages == Append(s.pages, due, p.spec)
    ensures Extends(p, s, t, Activations(s.pages, due, p.spec))
  {
    AppendSingle(s.pages, due, p.spec);
    SpansAppend(s, t, NewPage(s.pages, due[0].layer, p.spec));
  }

  lemma {:induction false} OpenAppends(p: Params, s: State)
    requires p.Valid() && Law(p, s)
    ensures Extends(p, s, OpenWindow(s, p),
      Activations(s.pages, DueGrowth(s.pending, s.windowId + 1), p.spec))
  {
    var due := DueGrowth(s.pending, s.windowId + 1);
    DueAtMostPending(s.pending, s.windowId + 1);
    if due == [] {
      SameSpans(s, OpenWindow(s, p));
    } else {
      OneOpens(p, s, due, OpenWindow(s, p));
    }
  }

  lemma {:induction false} DueAtMostPending(pending: seq<Growth>, window: nat)
    ensures |DueGrowth(pending, window)| <= |pending|
  {
    if pending != [] { DueAtMostPending(pending[1..], window); }
  }
}
