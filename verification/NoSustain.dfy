/**
 * What a streak length of zero breaks: every window freezes, so the fold and the
 * counter controller part, and growth stops for good.
 */
module NoSustain {
  import opened Division
  import opened Capacity
  import opened ModelState
  import opened PageTableLaw
  import opened CapacityLaw
  import opened GrowthLaw
  import opened WindowSteps

  // ---- growth stalls ----

  /** Nothing is announced, and both a frozen and an active grown page exist. */
  ghost predicate Stuck(p: Params, s: State)
    requires p.Valid()
  {
    && |s.pages| >= p.spec.GenesisPages() && s.pending == []
    && FirstFrozen(s.pages, p.spec.GenesisPages()) < |s.pages|
    && LastActive(s.pages, p.spec.GenesisPages(), |s.pages|) > p.spec.GenesisPages()
  }

  lemma {:induction false} SomeFrozen(pages: seq<Page>, base: nat, i: nat)
    requires base <= i < |pages| && !pages[i].active
    ensures FirstFrozen(pages, base) < |pages|
  {
    if FirstFrozen(pages, base) == |pages| { FirstFrozenLeast(pages, base, i); }
  }

  lemma {:induction false} SomeActive(pages: seq<Page>, base: nat, i: nat)
    requires base <= i < |pages| && pages[i].active
    ensures LastActive(pages, base, |pages|) > base
  {
    if LastActive(pages, base, |pages|) == base { LastActiveGreatest(pages, base, |pages|, i); }
  }

  /** Stuck, with the quota at its ceiling: every window in demand may thaw. */
  ghost predicate Stalled(p: Params, s: State)
    requires p.Valid()
  {
    Stuck(p, s) && s.quota == p.knobs.quotaMax
  }

  /** The streak is zero, and the band either a single quota or high enough for the quota to climb. */
  ghost predicate Streakless(p: Params) {
    && p.Valid() && p.knobs.kSustain == 0
    && (p.knobs.quotaMin == p.knobs.quotaMax || DAMP_DIV * p.knobs.target <= p.knobs.quotaMin)
  }

  /** A window that may thaw and must freeze swaps one page for another. */
  lemma {:induction false} StuckStep(p: Params, s: State, d: Decision, prev: nat)
    requires p.Valid() && Stuck(p, s) && d.thawOk && d.freeze
    ensures var u := Conclude(s, p, d, prev); Stuck(p, u) && |u.pages| == |s.pages| && u.quota == d.quota
  {
    var base := p.spec.GenesisPages();
    NothingDue(s.windowId + 1);
    var f, a := FirstFrozen(s.pages, base), LastActive(s.pages, base, |s.pages|) - 1;
    var u := SetActive(SetActive(s.pages, f, true), a, false);
    SomeActive(u, base, f);
    SomeFrozen(u, base, a);
  }

  /** From the ceiling, demand keeps the quota there and allows a thaw; a zero streak always freezes. */
  lemma {:induction false} StalledDecision(quota: nat, pinned: nat, slack: nat, accepted: nat, staleness: nat, k: Knobs)
    requires k.Valid() && k.kSustain == 0 && quota == k.quotaMax
    requires k.quotaMin == k.quotaMax || k.dampDiv * k.target <= k.quotaMin
    requires accepted > k.target && staleness <= k.staleCeiling
    ensures var d := Decide(quota, pinned, slack, accepted, staleness, k);
      d.thawOk && d.freeze && d.quota == k.quotaMax
  {
    if k.quotaMin < k.quotaMax { QuotaClimbs(quota, accepted, k); }
  }

  lemma {:induction false} StalledBlock(p: Params, blocks: seq<Input>)
    requires Streakless(p) && blocks != []
    requires Stalled(p, Run(p, blocks[..|blocks| - 1])) && (AtBoundary(p, |blocks|) ==> Demand(p, blocks))
    ensures Stalled(p, Run(p, blocks)) && |Run(p, blocks).pages| == |Run(p, blocks[..|blocks| - 1]).pages|
  {
    if AtBoundary(p, |blocks|) {
      var a := Closing(p, blocks);
      StalledDecision(a.quota, a.pinned, a.slack, a.winAccepted, Staleness(a, p), p.knobs);
      StuckStep(p, a, WindowDecision(a, p), blocks[|blocks| - 1].prevHash);
    }
  }

  /** Once stalled, no amount of demand appends a page. */
  lemma {:induction false} GrowthStalls(p: Params, blocks: seq<Input>, from: nat)
    requires Streakless(p) && from <= |blocks| && Stalled(p, Run(p, blocks[..from]))
    requires forall t :: from < t <= |blocks| && AtBoundary(p, t) ==> Demand(p, blocks[..t])
    ensures Stalled(p, Run(p, blocks)) && |Run(p, blocks).pages| == |Run(p, blocks[..from]).pages|
    decreases |blocks|
  {
    if from == |blocks| {
      assert blocks[..from] == blocks;
    } else {
      var init := blocks[..|blocks| - 1];
      assert init[..from] == blocks[..from] && blocks[..|blocks|] == blocks;
      forall t | from < t <= |init| && AtBoundary(p, t) ensures Demand(p, init[..t]) {
        assert init[..t] == blocks[..t];
      }
      GrowthStalls(p, init, from);
      StalledBlock(p, blocks);
    }
  }

  // ---- one surge is enough ----

  /** Enough deltas to lift any quota of the band to its ceiling at once. */
  function Surge(k: Knobs): nat { k.target * (DAMP_DIV * k.quotaMax) + 1 }

  lemma {:induction false} SurgeLifts(quota: nat, accepted: nat, k: Knobs)
    requires k.Valid() && k.dampDiv == DAMP_DIV && k.quotaMin <= quota <= k.quotaMax && accepted >= Surge(k)
    requires k.quotaMin == k.quotaMax || k.dampDiv * k.target <= k.quotaMin
    ensures accepted > k.target && NextQuota(quota, accepted, k) == k.quotaMax
  {
    var t, top := k.target, DAMP_DIV * k.quotaMax;
    MulMonotone(t, 1, top);
    if k.quotaMin < k.quotaMax {
      MulMonotone(accepted, 1, quota);
      DivideAtLeast(quota * accepted, t, top);
      DivideAtLeast(Raw(quota, accepted, k) - quota, DAMP_DIV, k.quotaMax - quota);
    }
  }

  /** The window closing at block |blocks| opens a page behind a frozen one. */
  ghost predicate OpensBehindFrozen(p: Params, s: State)
    requires p.Valid()
  {
    && |s.pages| >= p.spec.GenesisPages() && FirstFrozen(s.pages, p.spec.GenesisPages()) < |s.pages|
    && |s.pending| == 1 && s.pending[0].window <= s.windowId + 1
  }

  /** It thaws the frozen page and freezes the new one: nothing is announced, one of the two is active. */
  lemma {:induction false} SwapWindow(p: Params, s: State, d: Decision, prev: nat)
    requires p.Valid() && OpensBehindFrozen(p, s) && d.thawOk && d.freeze
    ensures var u := Conclude(s, p, d, prev);
      Stuck(p, u) && |u.pages| == |s.pages| + 1 && u.quota == d.quota
  {
    var base, n, page := p.spec.GenesisPages(), |s.pages|, NewPage(s.pages, s.pending[0].layer, p.spec);
    OpensOne(p, s);
    var pages := s.pages + [page];
    FrozenPrefix(s.pages, page, base);
    var f := FirstFrozen(pages, base);
    SomeActive(pages, base, n);
    assert LastActive(pages, base, n + 1) == n + 1;
    var u := SetActive(SetActive(pages, f, true), n, false);
    SomeActive(u, base, f);
    SomeFrozen(u, base, n);
  }

  lemma {:induction false} FrozenPrefix(pages: seq<Page>, page: Page, from: nat)
    requires from <= |pages| && FirstFrozen(pages, from) < |pages|
    ensures FirstFrozen(pages + [page], from) == FirstFrozen(pages, from)
    decreases |pages| - from
  {
    if pages[from].active { FrozenPrefix(pages, page, from + 1); }
  }

  /**
   * A streak of zero stops growth: for any band, lead, window length and table,
   * a surge in a window that opens a page behind a frozen one is the last time
   * the model grows, however long every later window stays in demand.
   */
  lemma {:induction false} SurgeStopsGrowth(p: Params, blocks: seq<Input>, from: nat)
    requires Streakless(p) && 0 < from <= |blocks| && AtBoundary(p, from)
    requires OpensBehindFrozen(p, Run(p, blocks[..from - 1]))
    requires Demand(p, blocks[..from]) && Closing(p, blocks[..from]).winAccepted >= Surge(p.knobs)
    requires forall t :: from < t <= |blocks| && AtBoundary(p, t) ==> Demand(p, blocks[..t])
    ensures |Run(p, blocks).pages| == |Run(p, blocks[..from - 1]).pages| + 1
  {
    var upTo := blocks[..from];
    assert upTo[..from - 1] == blocks[..from - 1];
    SurgeStalls(p, upTo);
    GrowthStalls(p, blocks, from);
  }

  lemma {:induction false} SurgeStalls(p: Params, blocks: seq<Input>)
    requires Streakless(p) && blocks != [] && AtBoundary(p, |blocks|) && Demand(p, blocks)
    requires OpensBehindFrozen(p, Run(p, blocks[..|blocks| - 1])) && Closing(p, blocks).winAccepted >= Surge(p.knobs)
    ensures Stalled(p, Run(p, blocks)) && |Run(p, blocks).pages| == |Run(p, blocks[..|blocks| - 1]).pages| + 1
  {
    var a := Closing(p, blocks);
    RunLaw(p, blocks[..|blocks| - 1]);
    SurgeLifts(a.quota, a.winAccepted, p.knobs);
    SurgeDecision(a.quota, a.pinned, a.slack, a.winAccepted, Staleness(a, p), p.knobs);
    SwapWindow(p, a, WindowDecision(a, p), blocks[|blocks| - 1].prevHash);
  }

  lemma {:induction false} SurgeDecision(quota: nat, pinned: nat, slack: nat, accepted: nat, staleness: nat, k: Knobs)
    requires k.Valid() && k.kSustain == 0 && NextQuota(quota, accepted, k) == k.quotaMax
    requires accepted > k.target && staleness <= k.staleCeiling
    ensures var d := Decide(quota, pinned, slack, accepted, staleness, k);
      d.thawOk && d.freeze && d.quota == k.quotaMax
  {
  }

  // ---- a run in demand ----

  /** One genesis page, one window per block, no streak asked for, and a band of a single quota. */
  ghost predicate Eager(p: Params, lead: nat) {
    && p.Valid() && p.spec.GenesisPages() == 1 && p.spec.nLayers == 1 && p.window == 1 && p.announceLead == lead
    && p.knobs.quotaMin == 10_000 && p.knobs.quotaMax == 10_000 && p.knobs.target == 1
    && p.knobs.staleCeiling == 0 && p.knobs.kSustain == 0 && p.v3Height == 100 && p.v4Height == 100
  }

  const EAGER: Params := Params(Spec(1, 0, 1, 1), 1, Knobs(10_000, 10_000, 1, 4, 0, 0), 1, 100, 100, 0)

  /** Such parameters exist, for every lead. */
  lemma {:induction false} EagerExists(lead: nat)
    ensures Eager(EAGER.(announceLead := lead), lead)
  {
    assert EAGER.spec.ExpertsBelow(1) == EAGER.spec.ExpertsBelow(0) + 0;
  }

  /** Twice the target, all of it scored. */
  ghost predicate InDemand(blocks: seq<Input>) {
    forall i :: 0 <= i < |blocks| ==> blocks[i].nTxs == 2 && blocks[i].zeroScored == 0
  }

  lemma {:induction false} EagerDecision(p: Params, lead: nat, pinned: nat, slack: nat)
    requires Eager(p, lead)
    ensures Decide(10_000, pinned, slack, 2, 0, p.knobs) == Decision(10_000, pinned + 1, 0, true, true, true)
  {
  }

  /** Between windows, n pages, growth announced for the given window if any. */
  ghost predicate At(s: State, window: nat, n: nat, due: seq<nat>) {
    && s.windowId == window && |s.pages| == n && s.quota == 10_000
    && |s.pending| == |due| <= 1 && (due != [] ==> s.pending[0].window == due[0])
    && s.winAccepted == 0 && s.winZeroScored == 0 && s.rev == 2
  }

  /** One more block in demand closes a window with the eager decision. */
  lemma {:induction false} EagerBlock(p: Params, lead: nat, blocks: seq<Input>)
    requires Eager(p, lead) && InDemand(blocks) && 0 < |blocks| < 100
    requires var s := Run(p, blocks[..|blocks| - 1]);
      s.quota == 10_000 && s.winAccepted == 0 && s.winZeroScored == 0 && s.rev == 2
    ensures AtBoundary(p, |blocks|) && Demand(p, blocks)
    ensures var s := Run(p, blocks[..|blocks| - 1]); var a := Closing(p, blocks);
      && a == s.(winAccepted := 2) && WindowDecision(a, p) == Decision(10_000, s.pinned + 1, 0, true, true, true)
      && Run(p, blocks) == Conclude(a, p, WindowDecision(a, p), blocks[|blocks| - 1].prevHash)
  {
    var s, a := Run(p, blocks[..|blocks| - 1]), Closing(p, blocks);
    CycleIsMod(|blocks|, 1);
    assert a == s.(winAccepted := 2);
    EagerDecision(p, lead, s.pinned, s.slack);
  }

  lemma {:induction false} EagerStart(p: Params, lead: nat)
    requires Eager(p, lead)
    ensures At(Run(p, []), 0, 1, [])
  {
  }

  lemma {:induction false} FirstEager(p: Params, lead: nat, blocks: seq<Input>)
    requires Eager(p, lead) && InDemand(blocks) && |blocks| == 1
    ensures At(Run(p, blocks), 1, 1, [1 + lead])
  {
    assert blocks[..0] == [];
    EagerStart(p, lead);
    EagerBlock(p, lead, blocks);
    var a := Closing(p, blocks);
    SchedulingWindow(p, a, WindowDecision(a, p), blocks[0].prevHash);
  }

  /** The first grown page opens, and is frozen in the window that announces the second. */
  lemma {:induction false} OpenedAndFrozen(p: Params, lead: nat, blocks: seq<Input>)
    requires Eager(p, lead) && InDemand(blocks) && 1 < |blocks| < 100
    requires At(Run(p, blocks[..|blocks| - 1]), |blocks| - 1, 1, [|blocks|])
    ensures At(Run(p, blocks), |blocks|, 2, [|blocks| + lead]) && !Run(p, blocks).pages[1].active
  {
    EagerBlock(p, lead, blocks);
    var a := Closing(p, blocks);
    ChurningWindow(p, a, WindowDecision(a, p), blocks[|blocks| - 1].prevHash);
  }

  /** With a lead of one window, three windows in demand are enough to get stuck. */
  lemma {:induction false} ThreeWindows(p: Params, blocks: seq<Input>)
    requires Eager(p, 1) && InDemand(blocks) && |blocks| == 3
    ensures Stalled(p, Run(p, blocks)) && |Run(p, blocks).pages| == 3
  {
    assert blocks[..2][..1] == blocks[..1];
    FirstEager(p, 1, blocks[..1]);
    OpenedAndFrozen(p, 1, blocks[..2]);
    EagerBlock(p, 1, blocks);
    var a := Closing(p, blocks);
    SomeFrozen(a.pages, 1, 1);
    SwapWindow(p, a, WindowDecision(a, p), blocks[2].prevHash);
  }

  /**
   * The streak length must be positive for growth to be live: with a streak of
   * zero and a lead of one window, growth stops at three pages however long
   * every window stays in demand.
   */
  lemma {:induction false} ZeroStreakStopsGrowth(p: Params, blocks: seq<Input>)
    requires Eager(p, 1) && |blocks| >= 3 && InDemand(blocks[..3])
    requires forall t :: 3 < t <= |blocks| && AtBoundary(p, t) ==> Demand(p, blocks[..t])
    ensures |Run(p, blocks).pages| == 3
  {
    ThreeWindows(p, blocks[..3]);
    GrowthStalls(p, blocks, 3);
  }

  // ---- the fold and the controller part ----

  lemma {:induction false} SecondWaits(p: Params, blocks: seq<Input>)
    requires Eager(p, 2) && InDemand(blocks) && |blocks| == 2
    ensures At(Run(p, blocks), 2, 1, [3])
  {
    FirstEager(p, 2, blocks[..1]);
    EagerBlock(p, 2, blocks);
    var a := Closing(p, blocks);
    WaitingWindow(p, a, WindowDecision(a, p), blocks[1].prevHash);
  }

  lemma {:induction false} ClashOnThaw(p: Params, a: State, d: Decision)
    requires p.Valid() && p.spec.GenesisPages() == 1 && |a.pages| == 2 && !a.pages[1].active
    requires |a.pending| == 1 && a.pending[0].window > a.windowId + 1 && d.thawOk && d.freeze
    ensures Clashes(p, a, d)
  {
    assert a.pending == [a.pending[0]];
    OneEvent(a.pending[0], a.windowId + 1);
    assert FirstFrozen(a.pages, 1) == 1;
    assert LastActive(a.pages, 1, 2) == LastActive(a.pages, 1, 1) == 1;
  }

  /**
   * The streak length must be positive for the fold to refine the controller:
   * with a streak of zero and a lead of two windows the fourth window in demand
   * clashes, so the run does not agree throughout.
   */
  lemma {:induction false} ZeroStreakDiverges(p: Params, blocks: seq<Input>)
    requires Eager(p, 2) && InDemand(blocks) && |blocks| == 4
    ensures AtBoundary(p, 4) && ClashAt(p, blocks) && !AgreesThroughout(p, blocks)
  {
    assert blocks[..3][..2] == blocks[..2];
    SecondWaits(p, blocks[..2]);
    OpenedAndFrozen(p, 2, blocks[..3]);
    EagerBlock(p, 2, blocks);
    var a := Closing(p, blocks);
    ClashOnThaw(p, a, WindowDecision(a, p));
    RunAgreesExactly(p, blocks);
  }
}
