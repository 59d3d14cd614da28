/** Laws of the capacity controller over whole runs: freeze order, refinement of the counter controller. */
module CapacityLaw {
  import opened Capacity
  import opened ModelState
  import opened PageTableLaw

  /** The facts about one decision that the laws rest on. */
  ghost predicate Sound(d: Decision, pinned: nat, slack: nat, k: Knobs) {
    && k.quotaMin <= d.quota <= k.quotaMax
    && (d.thawOk ==> d.slack == 0 && d.quota >= k.Ceiling() && d.pinned == pinned + 1)
    && (!d.thawOk ==> d.pinned == 0)
    && d.slack <= slack + 1
    && (d.schedule <==> d.pinned >= k.kSustain)
    && (d.freeze <==> d.slack >= k.kSustain)
  }

  lemma {:induction false} DecideIsSound(quota: nat, pinned: nat, slack: nat, accepted: nat, staleness: nat, k: Knobs)
    requires k.Valid()
    ensures Sound(Decide(quota, pinned, slack, accepted, staleness, k), pinned, slack, k)
  {
    DecideBand(quota, pinned, slack, accepted, staleness, k);
  }

  // ---- LIFO freezing ----

  /** Exactly the pages from c on are frozen, and c is past the genesis pages. */
  ghost predicate FrozenFrom(pages: seq<Page>, base: nat, c: nat) {
    && base <= c <= |pages|
    && forall id :: 0 <= id < |pages| ==> (pages[id].active <==> id < c)
  }

  lemma {:induction false} CutPoint(pages: seq<Page>, base: nat, c: nat)
    requires FrozenFrom(pages, base, c)
    ensures FirstFrozen(pages, base) == c == LastActive(pages, base, |pages|)
  {
    var f, l := FirstFrozen(pages, base), LastActive(pages, base, |pages|);
    if f > c { FirstFrozenLeast(pages, base, c); }
    if l < c { LastActiveGreatest(pages, base, |pages|, c - 1); }
  }

  /** While growth is announced nothing is frozen, and the deficit streak is younger than the announcement. */
  ghost predicate Lifo(p: Params, s: State, c: nat)
    requires p.Valid()
  {
    && FrozenFrom(s.pages, p.spec.GenesisPages(), c)
    && (s.pending != [] ==>
          c == |s.pages| && s.slack + s.pending[0].window <= s.windowId + p.announceLead)
  }

  lemma {:induction false} OpenKeepsLifo(p: Params, s: State, c: nat) returns (c': nat)
    requires p.Valid() && Law(p, s) && Lifo(p, s, c)
    ensures FrozenFrom(OpenWindow(s, p).pages, p.spec.GenesisPages(), c')
    ensures OpenWindow(s, p).pending != [] ==>
      && c' == |OpenWindow(s, p).pages|
      && s.slack + 1 + OpenWindow(s, p).pending[0].window <= OpenWindow(s, p).windowId + p.announceLead
  {
    OpenKeepsLaw(p, s);
    c' := if |OpenWindow(s, p).pages| > |s.pages| then |OpenWindow(s, p).pages| else c;
  }

  lemma {:induction false} ActKeepsLifo(
    p: Params, t: State, d: Decision, prevHash: nat, slack: nat, c: nat) returns (c': nat)
    requires p.Valid() && 1 <= p.knobs.kSustain && p.announceLead <= p.knobs.kSustain
    requires Table(p, t) && Bookkept(p, t) && Sound(d, t.pinned, slack, p.knobs)
    requires FrozenFrom(t.pages, p.spec.GenesisPages(), c)
    requires t.pending != [] ==>
      && c == |t.pages| && t.windowId < t.pending[0].window
      && slack + 1 + t.pending[0].window <= t.windowId + p.announceLead
    ensures Lifo(p, ActOn(t, p, d, prevHash), c')
  {
    var base := p.spec.GenesisPages();
    CutPoint(t.pages, base, c);
    c' := if d.thawOk && c < |t.pages| then c + 1 else if d.freeze && c > base then c - 1 else c;
  }

  lemma {:induction false} ConcludeKeepsLifo(p: Params, s: State, d: Decision, prevHash: nat, c: nat) returns (c': nat)
    requires p.Valid() && 1 <= p.knobs.kSustain && p.announceLead <= p.knobs.kSustain
    requires Law(p, s) && Lifo(p, s, c) && Sound(d, s.pinned, s.slack, p.knobs)
    ensures Lifo(p, Conclude(s, p, d, prevHash), c')
  {
    OpenKeepsLaw(p, s);
    c' := OpenKeepsLifo(p, s, c);
    c' := ActKeepsLifo(p, OpenWindow(s, p), d, prevHash, s.slack, c');
  }

  /**
   * In every reachable state the frozen pages are exactly a suffix of the grown
   * pages: freezing is newest-first, thawing oldest-frozen-first, and no page is
   * appended behind a frozen one. Genesis pages are never frozen.
   */
  lemma {:induction false} RunLifo(p: Params, blocks: seq<Input>) returns (c: nat)
    requires p.Valid() && 1 <= p.knobs.kSustain && p.announceLead <= p.knobs.kSustain
    ensures Lifo(p, Run(p, blocks), c)
    decreases |blocks|
  {
    if blocks == [] {
      c := p.spec.GenesisPages();
    } else {
      var init, b := blocks[..|blocks| - 1], blocks[|blocks| - 1];
      c := RunLifo(p, init);
      RunLaw(p, init);
      if AtBoundary(p, |blocks|) {
        var a := Accumulate(Run(p, init), p, |blocks|, b);
        DecideIsSound(a.quota, a.pinned, a.slack, a.winAccepted, Staleness(a, p), p.knobs);
        c := ConcludeKeepsLifo(p, a, WindowDecision(a, p), b.prevHash, c);
      }
    }
  }

  // ---- the fold refines the counter controller ----

  function ActiveCount(pages: seq<Page>): nat {
    if pages == [] then 0
    else ActiveCount(pages[..|pages| - 1]) + if pages[|pages| - 1].active then 1 else 0
  }

  lemma {:induction false} CountBounds(pages: seq<Page>, base: nat)
    requires base <= |pages| && forall id :: 0 <= id < base ==> pages[id].active
    ensures base <= ActiveCount(pages) <= |pages|
    ensures ActiveCount(pages) < |pages| <==> FirstFrozen(pages, base) < |pages|
    ensures ActiveCount(pages) > base <==> LastActive(pages, base, |pages|) > base
  {
    if |pages| > base {
      var init := pages[..|pages| - 1];
      CountBounds(init, base);
      FirstFrozenInit(pages, base);
      LastActiveInit(pages, base, |pages| - 1);
    } else if base > 0 {
      CountBounds(pages[..base - 1], base - 1);
      FirstFrozenInit(pages, base - 1);
    }
  }

  lemma {:induction false} FirstFrozenInit(pages: seq<Page>, from: nat)
    requires from < |pages|
    ensures var init := pages[..|pages| - 1];
      FirstFrozen(pages, from) ==
        if FirstFrozen(init, from) < |init| || !pages[|init|].active then FirstFrozen(init, from)
        else |pages|
    decreases |pages| - from
  {
    if from < |pages| - 1 { FirstFrozenInit(pages, from + 1); }
  }

  lemma {:induction false} LastActiveInit(pages: seq<Page>, from: nat, end: nat)
    requires from <= end < |pages|
    ensures LastActive(pages, from, end) == LastActive(pages[..|pages| - 1], from, end)
    decreases end
  {
    if from < end { LastActiveInit(pages, from, end - 1); }
  }

  lemma {:induction false} CountSet(pages: seq<Page>, i: nat, active: bool)
    requires i < |pages| && pages[i].active != active
    ensures ActiveCount(SetActive(pages, i, active)) == ActiveCount(pages) + if active then 1 else -1
  {
    var init := pages[..|pages| - 1];
    if i < |pages| - 1 {
      CountSet(init, i, active);
      assert SetActive(pages, i, active)[..|pages| - 1] == SetActive(init, i, active);
    } else {
      assert SetActive(pages, i, active)[..|pages| - 1] == init;
    }
  }

  function Windows(pending: seq<Growth>): (w: seq<nat>)
    ensures |w| == |pending|
  {
    if pending == [] then [] else [pending[0].window] + Windows(pending[1..])
  }

  lemma {:induction false} SplitWindows(pending: seq<Growth>, window: nat)
    ensures |Due(Windows(pending), window)| == |DueGrowth(pending, window)|
    ensures NotDue(Windows(pending), window) == Windows(LaterGrowth(pending, window))
  {
    if pending != [] {
      SplitWindows(pending[1..], window);
      assert Windows(pending)[1..] == Windows(pending[1..]);
      var later := LaterGrowth(pending[1..], window);
      if pending[0].window > window {
        assert LaterGrowth(pending, window) == [pending[0]] + later;
        assert ([pending[0]] + later)[1..] == later;
        assert DueGrowth(pending, window) == DueGrowth(pending[1..], window);
      } else {
        assert LaterGrowth(pending, window) == later;
        assert NotDue(Windows(pending), window) == NotDue(Windows(pending[1..]), window);
      }
    }
  }

  /** What the counter controller sees of a model state. */
  function Project(s: State): Counters {
    Counters(s.quota, s.pinned, s.slack, Windows(s.pending), s.windowId, |s.pages|, ActiveCount(s.pages))
  }

  function SetupOf(p: Params): Setup { Setup(p.knobs, 1, p.announceLead, p.spec.GenesisPages()) }

  lemma {:induction false} OpenProjects(p: Params, s: State)
    requires p.Valid() && Law(p, s)
    ensures Project(OpenWindow(s, p)) == Open(Project(s), SetupOf(p))
  {
    OpenKeepsLaw(p, s);
    var window, t := s.windowId + 1, OpenWindow(s, p);
    SplitWindows(s.pending, window);
    AppendGrows(s.pages, DueGrowth(s.pending, window), p.spec);
    if |t.pages| > |s.pages| {
      assert t.pages == s.pages + [PageAt(p.spec, |s.pages|)];
      assert t.pages[..|t.pages| - 1] == s.pages;
    }
  }

  /**
   * The one case in which the fold and the controller part: a page is thawed in
   * a window that also freezes, and no other grown page is active. The fold
   * chose what to freeze before thawing and finds nothing; the controller
   * freezes what it has just thawed.
   */
  predicate Clash(p: Params, t: State, d: Decision)
    requires |t.pages| >= p.spec.GenesisPages()
  {
    var base := p.spec.GenesisPages();
    && d.thawOk && d.freeze
    && FirstFrozen(t.pages, base) < |t.pages| && LastActive(t.pages, base, |t.pages|) == base
  }

  /** Thawing the first frozen page and freezing the last active one, each if asked. */
  function Moved(pages: seq<Page>, base: nat, thaw: bool, freeze: bool): (r: seq<Page>)
    requires base <= |pages|
    requires thaw ==> FirstFrozen(pages, base) < |pages|
    requires freeze ==> LastActive(pages, base, |pages|) > base
    ensures |r| == |pages|
  {
    var thawed := if thaw then SetActive(pages, FirstFrozen(pages, base), true) else pages;
    if freeze then SetActive(thawed, LastActive(pages, base, |pages|) - 1, false) else thawed
  }

  lemma {:induction false} MovedCount(pages: seq<Page>, base: nat, thaw: bool, freeze: bool)
    requires base <= |pages|
    requires thaw ==> FirstFrozen(pages, base) < |pages|
    requires freeze ==> LastActive(pages, base, |pages|) > base
    ensures ActiveCount(Moved(pages, base, thaw, freeze))
      == ActiveCount(pages) + (if thaw then 1 else 0) - (if freeze then 1 else 0)
  {
    var frozen, active := FirstFrozen(pages, base), LastActive(pages, base, |pages|);
    var thawed := if thaw then SetActive(pages, frozen, true) else pages;
    if thaw { CountSet(pages, frozen, true); }
    if freeze { CountSet(thawed, active - 1, false); }
  }

  /** Page statuses and counters take the same thaw and freeze steps. */
  lemma {:induction false} ActCounts(p: Params, t: State, d: Decision, prevHash: nat)
    requires p.Valid() && Table(p, t) && !Clash(p, t, d)
    ensures var u, c := ActOn(t, p, d, prevHash), Act(Project(t), SetupOf(p), d);
      && |u.pages| == |t.pages| && ActiveCount(u.pages) == c.active
      && u.pinned == c.pinned && u.slack == c.slack && u.quota == c.quota
  {
    var base := p.spec.GenesisPages();
    CountBounds(t.pages, base);
    assert t.pending == [] <==> Windows(t.pending) == [];
    var thaw := d.thawOk && FirstFrozen(t.pages, base) < |t.pages|;
    var freeze := d.freeze && LastActive(t.pages, base, |t.pages|) > base;
    MovedCount(t.pages, base, thaw, freeze);
    assert ActOn(t, p, d, prevHash).pages == Moved(t.pages, base, thaw, freeze);
  }

  lemma {:induction false} ClashCounts(p: Params, t: State, d: Decision, prevHash: nat)
    requires p.Valid() && Table(p, t) && Clash(p, t, d)
    ensures ActiveCount(ActOn(t, p, d, prevHash).pages) == Act(Project(t), SetupOf(p), d).active + 1
  {
    var base := p.spec.GenesisPages();
    CountBounds(t.pages, base);
    CountSet(t.pages, FirstFrozen(t.pages, base), true);
  }

  lemma {:induction false} ActProjects(p: Params, t: State, d: Decision, prevHash: nat)
    requires p.Valid() && Table(p, t) && |t.pending| <= 1 && !Clash(p, t, d)
    ensures Project(ActOn(t, p, d, prevHash)) == Act(Project(t), SetupOf(p), d)
  {
    ActCounts(p, t, d, prevHash);
    var u, c := ActOn(t, p, d, prevHash), Act(Project(t), SetupOf(p), d);
    assert Windows(u.pending) == c.pending by {
      CountBounds(t.pages, p.spec.GenesisPages());
      if u.pending != t.pending {
        assert u.pending[1..] == [] && Windows([]) == [];
        assert Windows(u.pending) == [u.pending[0].window];
      }
    }
  }

  /** The clash, as seen from the window being closed. */
  predicate Clashes(p: Params, s: State, d: Decision)
    requires p.Valid() && |s.pages| >= p.spec.GenesisPages()
  {
    AppendGrows(s.pages, DueGrowth(s.pending, s.windowId + 1), p.spec);
    Clash(p, OpenWindow(s, p), d)
  }

  /** One window projects onto one controller step if and only if it does not clash. */
  lemma {:induction false} ConcludeProjectsExactly(p: Params, s: State, d: Decision, prevHash: nat)
    requires p.Valid() && Law(p, s)
    ensures Project(Conclude(s, p, d, prevHash)) == Act(Open(Project(s), SetupOf(p)), SetupOf(p), d)
      <==> !Clashes(p, s, d)
  {
    OpenKeepsLaw(p, s);
    OpenProjects(p, s);
    if Clashes(p, s, d) {
      ClashCounts(p, OpenWindow(s, p), d, prevHash);
    } else {
      ActProjects(p, OpenWindow(s, p), d, prevHash);
    }
  }

  lemma {:induction false} ConcludeProjects(p: Params, s: State, d: Decision, prevHash: nat)
    requires p.Valid() && Law(p, s) && !(d.thawOk && d.freeze)
    ensures Project(Conclude(s, p, d, prevHash)) == Act(Open(Project(s), SetupOf(p)), SetupOf(p), d)
  {
    ConcludeProjectsExactly(p, s, d, prevHash);
  }

  /** One window signal as the controller is fed it. */
  datatype Signal = Signal(accepted: nat, staleness: nat)

  /** The signals of every window a run has closed. */
  function Signals(p: Params, blocks: seq<Input>): seq<Signal>
    requires p.Valid()
  {
    if blocks == [] then []
    else
      var init := blocks[..|blocks| - 1];
      var a := Accumulate(Run(p, init), p, |blocks|, blocks[|blocks| - 1]);
      Signals(p, init) + if AtBoundary(p, |blocks|) then [Signal(a.winAccepted, Staleness(a, p))] else []
  }

  function ObserveAll(c: Counters, s: Setup, signals: seq<Signal>): Counters
    requires s.knobs.Valid()
  {
    if signals == [] then c
    else
      var last := signals[|signals| - 1];
      Observe(ObserveAll(c, s, signals[..|signals| - 1]), s, last.accepted, last.staleness)
  }

  /** The state just before the window closing at block |blocks| is decided. */
  function Closing(p: Params, blocks: seq<Input>): (a: State)
    requires p.Valid() && blocks != []
    ensures |a.pages| >= p.spec.GenesisPages()
  {
    Accumulate(Run(p, blocks[..|blocks| - 1]), p, |blocks|, blocks[|blocks| - 1])
  }

  /** The window closing at block |blocks| clashes. */
  predicate ClashAt(p: Params, blocks: seq<Input>)
    requires p.Valid() && blocks != []
  {
    Clashes(p, Closing(p, blocks), WindowDecision(Closing(p, blocks), p))
  }

  /** The fold and the controller agree, field for field. */
  ghost predicate Agrees(p: Params, blocks: seq<Input>)
    requires p.Valid()
  {
    Project(Run(p, blocks)) == ObserveAll(Project(Genesis(p.spec)), SetupOf(p), Signals(p, blocks))
  }

  /** From agreement, one more block keeps it if and only if it closes no clashing window. */
  lemma {:induction false} BlockAgrees(p: Params, blocks: seq<Input>)
    requires p.Valid() && blocks != [] && Agrees(p, blocks[..|blocks| - 1])
    ensures Agrees(p, blocks) <==> !(AtBoundary(p, |blocks|) && ClashAt(p, blocks))
  {
    var init, b := blocks[..|blocks| - 1], blocks[|blocks| - 1];
    RunLaw(p, init);
    var signals, a := Signals(p, blocks), Closing(p, blocks);
    if AtBoundary(p, |blocks|) {
      assert signals[..|signals| - 1] == Signals(p, init);
      ConcludeProjectsExactly(p, a, WindowDecision(a, p), b.prevHash);
    } else {
      assert signals == Signals(p, init);
    }
  }

  /** The fold agrees with the controller after every block of the run. */
  ghost predicate AgreesThroughout(p: Params, blocks: seq<Input>)
    requires p.Valid()
  {
    Agrees(p, blocks) && (blocks != [] ==> AgreesThroughout(p, blocks[..|blocks| - 1]))
  }

  /** No window of the run clashes. */
  ghost predicate Clashless(p: Params, blocks: seq<Input>)
    requires p.Valid()
  {
    blocks != [] ==>
      !(AtBoundary(p, |blocks|) && ClashAt(p, blocks)) && Clashless(p, blocks[..|blocks| - 1])
  }

  /** A run agrees with the controller throughout if and only if none of its windows clashes. */
  lemma {:induction false} RunAgreesExactly(p: Params, blocks: seq<Input>)
    requires p.Valid()
    ensures AgreesThroughout(p, blocks) <==> Clashless(p, blocks)
    decreases |blocks|
  {
    if blocks != [] {
      var init := blocks[..|blocks| - 1];
      RunAgreesExactly(p, init);
      if AgreesThroughout(p, init) { BlockAgrees(p, blocks); }
    }
  }

  /** With a positive streak length a window never both thaws and freezes. */
  lemma {:induction false} SustainedNeverClashes(p: Params, blocks: seq<Input>)
    requires p.Valid() && 1 <= p.knobs.kSustain && blocks != []
    ensures !ClashAt(p, blocks)
  {
    var a := Closing(p, blocks);
    DecideIsSound(a.quota, a.pinned, a.slack, a.winAccepted, Staleness(a, p), p.knobs);
  }

  /**
   * The page-level fold over any block sequence projects onto the counter
   * controller fed the same window signals, field for field.
   */
  lemma {:induction false} RunRefinesController(p: Params, blocks: seq<Input>)
    requires p.Valid() && 1 <= p.knobs.kSustain
    ensures Project(Run(p, blocks)) == ObserveAll(Project(Genesis(p.spec)), SetupOf(p), Signals(p, blocks))
  {
    SustainedIsClashless(p, blocks);
    RunAgreesExactly(p, blocks);
  }

  lemma {:induction false} SustainedIsClashless(p: Params, blocks: seq<Input>)
    requires p.Valid() && 1 <= p.knobs.kSustain
    ensures Clashless(p, blocks)
    decreases |blocks|
  {
    if blocks != [] {
      SustainedNeverClashes(p, blocks);
      SustainedIsClashless(p, blocks[..|blocks| - 1]);
    }
  }

  /** The controller starts with every genesis module active. */
  lemma {:induction false} GenesisCounters(spec: Spec)
    requires spec.nLayers > 0
    ensures Project(Genesis(spec)) ==
      Counters(QUOTA_ONE_4DP, 0, 0, [], 0, spec.GenesisPages(), spec.GenesisPages())
  {
    AllActive(GenesisTable(spec));
  }

  lemma {:induction false} AllActive(pages: seq<Page>)
    requires forall id :: 0 <= id < |pages| ==> pages[id].active
    ensures ActiveCount(pages) == |pages|
  {
    if pages != [] { AllActive(pages[..|pages| - 1]); }
  }
}
