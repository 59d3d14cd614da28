/** Growth over whole runs: it happens within a bounded number of windows, and only on a quorum's evidence. */
module GrowthLaw {
  import opened Capacity
  import opened ModelState
  import opened PageTableLaw
  import opened CapacityLaw

  function Max(a: int, b: int): int { if a < b then b else a }

  // ---- bounded liveness ----

  /** A running streak means the quota is at its ceiling and nothing is frozen. */
  ghost predicate Primed(c: Counters, s: Setup) {
    && |c.pending| <= 1 && c.active <= c.total
    && s.knobs.quotaMin <= c.quota <= s.knobs.quotaMax
    && (c.pending != [] ==> c.windowId <= c.pending[0] <= c.windowId + s.announceLead)
    && (c.pinned > 0 ==> c.quota >= s.knobs.Ceiling() && c.active == c.total)
  }

  /** An upper bound on the windows left before a page is appended, if demand holds. */
  function Remaining(c: Counters, s: Setup): int {
    if c.pending != [] then Max(1, c.pending[0] - c.windowId)
    else Max(0, s.knobs.Ceiling() - c.quota - 1) + (c.total - c.active)
         + Max(1, s.knobs.kSustain - c.pinned) + Max(1, s.announceLead)
  }

  /** The one extra window a band of a single quota costs when growth has no announcement lead. */
  function Lag(knobs: Knobs, announceLead: nat): nat {
    if announceLead == 0 && knobs.quotaMin == knobs.quotaMax then 1 else 0
  }

  lemma {:induction false} RemainingBound(c: Counters, s: Setup)
    requires Primed(c, s) && s.knobs.kSustain >= 1
    ensures 1 <= Remaining(c, s) <=
      (s.knobs.quotaMax - s.knobs.quotaMin) + (c.total - c.active) + s.knobs.kSustain + s.announceLead
      + Lag(s.knobs, s.announceLead)
  {
    assert s.knobs.Ceiling() <= s.knobs.quotaMax;
  }

  lemma {:induction false} OpenSingle(c: Counters, s: Setup)
    requires |c.pending| <= 1 && s.growthBound == 1
    ensures var o := Open(c, s);
      if c.pending != [] && c.pending[0] <= c.windowId + 1
      then o.pending == [] && o.total == c.total + 1 && o.active == c.active + 1
      else o.pending == c.pending && o.total == c.total && o.active == c.active
  {
    var window := c.windowId + 1;
    assert Due([], window) == [] && NotDue([], window) == [];
    if c.pending != [] {
      assert c.pending == [c.pending[0]] && c.pending[1..] == [];
    }
  }

  lemma {:induction false} StepKeepsPrimed(c: Counters, s: Setup, d: Decision)
    requires Primed(c, s) && s.growthBound == 1 && s.knobs.kSustain >= 1
    requires Sound(d, c.pinned, c.slack, s.knobs)
    ensures Primed(Act(Open(c, s), s, d), s)
  {
    OpenSingle(c, s);
  }

  /** One window of demand above target with the gate open brings the append strictly closer. */
  lemma {:induction false} DemandAdvances(c: Counters, s: Setup, d: Decision)
    requires Primed(c, s) && s.growthBound == 1 && s.knobs.kSustain >= 1
    requires Sound(d, c.pinned, c.slack, s.knobs)
    requires d.slack == 0 && (d.thawOk <==> d.quota >= s.knobs.Ceiling())
    requires d.quota >= c.quota && (d.quota > c.quota || d.quota == s.knobs.quotaMax)
    ensures var u := Act(Open(c, s), s, d);
      u.total > c.total || Remaining(u, s) < Remaining(c, s)
  {
    OpenSingle(c, s);
    assert s.knobs.Ceiling() <= s.knobs.quotaMax;
  }

  /** The window closing at block |blocks| carried more than target deltas and an open growth gate. */
  ghost predicate Demand(p: Params, blocks: seq<Input>)
    requires p.Valid() && blocks != []
  {
    var a := Closing(p, blocks);
    a.winAccepted > p.knobs.target && Staleness(a, p) <= p.knobs.staleCeiling
  }

  lemma {:induction false} RunPrimed(p: Params, blocks: seq<Input>)
    requires p.Valid() && p.knobs.kSustain >= 1
    ensures Primed(Project(Run(p, blocks)), SetupOf(p))
    decreases |blocks|
  {
    if blocks == [] {
      GenesisCounters(p.spec);
    } else {
      var init, b := blocks[..|blocks| - 1], blocks[|blocks| - 1];
      RunPrimed(p, init);
      RunLaw(p, init);
      if AtBoundary(p, |blocks|) {
        var a := Accumulate(Run(p, init), p, |blocks|, b);
        DecideIsSound(a.quota, a.pinned, a.slack, a.winAccepted, Staleness(a, p), p.knobs);
        ConcludeProjects(p, a, WindowDecision(a, p), b.prevHash);
        StepKeepsPrimed(Project(a), SetupOf(p), WindowDecision(a, p));
      }
    }
  }

  lemma {:induction false} DemandDecision(quota: nat, pinned: nat, slack: nat, accepted: nat, staleness: nat, k: Knobs)
    requires k.Valid() && k.dampDiv * k.target <= k.quotaMin <= quota <= k.quotaMax
    requires accepted > k.target && staleness <= k.staleCeiling
    ensures var d := Decide(quota, pinned, slack, accepted, staleness, k);
      && d.slack == 0 && (d.thawOk <==> d.quota >= k.Ceiling())
      && d.quota >= quota && (d.quota > quota || d.quota == k.quotaMax)
  {
    QuotaClimbs(quota, accepted, k);
  }

  /** One block: either a page appears, or each closed window has consumed one unit of what remained. */
  lemma {:induction false} BlockAdvances(p: Params, blocks: seq<Input>)
    requires p.Valid() && p.knobs.kSustain >= 1 && DAMP_DIV * p.knobs.target <= p.knobs.quotaMin
    requires blocks != [] && (AtBoundary(p, |blocks|) ==> Demand(p, blocks))
    ensures var s, t := Run(p, blocks[..|blocks| - 1]), Run(p, blocks);
      && |t.pages| >= |s.pages|
      && (|t.pages| > |s.pages| ||
          Remaining(Project(t), SetupOf(p)) + (t.windowId - s.windowId) <= Remaining(Project(s), SetupOf(p)))
  {
    var init, b := blocks[..|blocks| - 1], blocks[|blocks| - 1];
    RunPrimed(p, init);
    RunLaw(p, init);
    FoldGrows(Run(p, init), p, |blocks|, b);
    if AtBoundary(p, |blocks|) {
      var a := Accumulate(Run(p, init), p, |blocks|, b);
      DecideIsSound(a.quota, a.pinned, a.slack, a.winAccepted, Staleness(a, p), p.knobs);
      DemandDecision(a.quota, a.pinned, a.slack, a.winAccepted, Staleness(a, p), p.knobs);
      ConcludeProjects(p, a, WindowDecision(a, p), b.prevHash);
      DemandAdvances(Project(a), SetupOf(p), WindowDecision(a, p));
    }
  }

  lemma {:induction false} RunAdvances(p: Params, blocks: seq<Input>, from: nat)
    requires p.Valid() && p.knobs.kSustain >= 1 && DAMP_DIV * p.knobs.target <= p.knobs.quotaMin
    requires from <= |blocks|
    requires forall t :: from < t <= |blocks| && AtBoundary(p, t) ==> Demand(p, blocks[..t])
    ensures var s, t := Run(p, blocks[..from]), Run(p, blocks);
      && |t.pages| >= |s.pages|
      && (|t.pages| > |s.pages| ||
          Remaining(Project(t), SetupOf(p)) + (t.windowId - s.windowId) <= Remaining(Project(s), SetupOf(p)))
    decreases |blocks|
  {
    if from == |blocks| {
      assert blocks[..from] == blocks;
    } else {
      var init := blocks[..|blocks| - 1];
      forall t | from < t <= |init| && AtBoundary(p, t) ensures Demand(p, init[..t]) {
        assert init[..t] == blocks[..t];
      }
      RunAdvances(p, init, from);
      assert init[..from] == blocks[..from] && blocks[..|blocks|] == blocks;
      BlockAdvances(p, blocks);
    }
  }

  /**
   * From any reachable state: if every window that closes carries demand above
   * target with the gate open, then once (quotaMax - quotaMin) + frozen +
   * kSustain + announceLead windows have closed, a page was appended. The bound
   * is one more in the one case in which it would otherwise fail (NoEarlyGrowth):
   * no lead, and a band of a single quota.
   */
  lemma {:induction false} GrowthIsLive(p: Params, blocks: seq<Input>, from: nat)
    requires p.Valid() && p.knobs.kSustain >= 1 && DAMP_DIV * p.knobs.target <= p.knobs.quotaMin
    requires from <= |blocks|
    requires forall t :: from < t <= |blocks| && AtBoundary(p, t) ==> Demand(p, blocks[..t])
    requires var s := Run(p, blocks[..from]);
      Run(p, blocks).windowId - s.windowId >=
        (p.knobs.quotaMax - p.knobs.quotaMin) + (|s.pages| - ActiveCount(s.pages))
        + p.knobs.kSustain + p.announceLead + Lag(p.knobs, p.announceLead)
    ensures |Run(p, blocks).pages| > |Run(p, blocks[..from]).pages|
  {
    RunAdvances(p, blocks, from);
    RunPrimed(p, blocks[..from]);
    RunPrimed(p, blocks);
    RemainingBound(Project(Run(p, blocks[..from])), SetupOf(p));
    RemainingBound(Project(Run(p, blocks)), SetupOf(p));
  }

  // ---- the bound is tight ----

  /** Nothing is announced before kSustain windows, nor appended before its announcement matures. */
  ghost predicate Unhurried(c: Counters, s: Setup) {
    && c.pinned <= c.windowId && c.total >= s.minActive
    && (c.pending != [] ==> c.windowId >= s.knobs.kSustain && c.pending[0] >= s.knobs.kSustain + s.announceLead)
    && (c.total > s.minActive ==> c.windowId >= s.knobs.kSustain + Max(1, s.announceLead))
  }

  lemma {:induction false} StepUnhurried(c: Counters, s: Setup, d: Decision)
    requires Primed(c, s) && Unhurried(c, s) && s.growthBound == 1 && Sound(d, c.pinned, c.slack, s.knobs)
    ensures Unhurried(Act(Open(c, s), s, d), s)
  {
    OpenSingle(c, s);
  }

  lemma {:induction false} RunUnhurried(p: Params, blocks: seq<Input>)
    requires p.Valid() && p.knobs.kSustain >= 1
    ensures Unhurried(Project(Run(p, blocks)), SetupOf(p))
    decreases |blocks|
  {
    if blocks == [] {
      GenesisCounters(p.spec);
    } else {
      var init, b := blocks[..|blocks| - 1], blocks[|blocks| - 1];
      RunUnhurried(p, init);
      RunPrimed(p, init);
      RunLaw(p, init);
      if AtBoundary(p, |blocks|) {
        var a := Accumulate(Run(p, init), p, |blocks|, b);
        DecideIsSound(a.quota, a.pinned, a.slack, a.winAccepted, Staleness(a, p), p.knobs);
        ConcludeProjects(p, a, WindowDecision(a, p), b.prevHash);
        StepUnhurried(Project(a), SetupOf(p), WindowDecision(a, p));
      }
    }
  }

  /**
   * No run appends a page before its window kSustain + max(1, announceLead). So
   * from genesis the bound of GrowthIsLive is exact for a band of a single
   * quota, and without Lag it fails in every run with no lead and such a band.
   */
  lemma {:induction false} NoEarlyGrowth(p: Params, blocks: seq<Input>)
    requires p.Valid() && p.knobs.kSustain >= 1
    requires Run(p, blocks).windowId < p.knobs.kSustain + Max(1, p.announceLead)
    ensures |Run(p, blocks).pages| == p.spec.GenesisPages()
  {
    RunUnhurried(p, blocks);
  }

  /** One backbone page, one window per block, growth announced with no lead. */
  function NoLead(): Params {
    Params(Spec(1, 0, 1, 1), 1, Knobs(QUOTA_ONE_4DP, QUOTA_ONE_4DP, 1, DAMP_DIV, 0, 1), 0, 10, 10, 0)
  }

  function Busy(): Input { Input(2, 0, 0, 0, "") }

  lemma {:induction false} NoLeadOpens()
    ensures NoLead().Valid() && AtBoundary(NoLead(), 1) && Run(NoLead(), []) == Genesis(NoLead().spec)
    ensures var a := Closing(NoLead(), [Busy()]); a.winAccepted == 2 && Staleness(a, NoLead()) == 0
  {
    assert Cycle(1, 1) == Cycle(0, 1) == 0;
    assert [Busy()][..0] == [];
  }

  lemma {:induction false} NoLeadSignals()
    ensures NoLead().Valid() && Signals(NoLead(), [Busy()]) == [Signal(2, 0)]
  {
    NoLeadOpens();
    assert [Busy()][..0] == [] && Signals(NoLead(), []) == [];
  }

  /** The window schedules growth and the controller's totals stay as they were. */
  lemma {:induction false} NoLeadObserved(c: Counters)
    requires c == Counters(QUOTA_ONE_4DP, 0, 0, [], 0, 1, 1)
    ensures var u := Observe(c, SetupOf(NoLead()), 2, 0); u.windowId == 1 && u.total == 1 && u.pending == [1]
  {
    var k := NoLead().knobs;
    assert Raw(QUOTA_ONE_4DP, 2, k) == 20_000 && NextQuota(QUOTA_ONE_4DP, 2, k) == QUOTA_ONE_4DP;
    assert Due([], 1) == [] && NotDue([], 1) == [];
  }

  /**
   * Lag is needed: with no lead and a single quota, a window in demand that
   * schedules growth still appends nothing until the next one opens.
   */
  lemma {:induction false} NoLeadIsLate()
    ensures NoLead().Valid() && DAMP_DIV * NoLead().knobs.target <= NoLead().knobs.quotaMin
    ensures AtBoundary(NoLead(), 1) && Demand(NoLead(), [Busy()])
    ensures var c := Project(Run(NoLead(), [Busy()]));
      && c.windowId ==
         (NoLead().knobs.quotaMax - NoLead().knobs.quotaMin) + NoLead().knobs.kSustain + NoLead().announceLead
      && c.total == Project(Run(NoLead(), [])).total && c.pending == [1]
  {
    var start := Project(Genesis(NoLead().spec));
    NoLeadOpens();
    NoLeadSignals();
    GenesisCounters(NoLead().spec);
    RunRefinesController(NoLead(), [Busy()]);
    assert [Signal(2, 0)][..0] == [];
    assert ObserveAll(start, SetupOf(NoLead()), [Signal(2, 0)]) == Observe(start, SetupOf(NoLead()), 2, 0);
    NoLeadObserved(start);
  }

  // ---- the quorum gate ----

  /** Length of the longest prefix of n blocks that ends at a window boundary. */
  function LastBoundary(p: Params, n: nat): (m: nat)
    requires p.Valid()
    ensures m <= n
  {
    if n == 0 || AtBoundary(p, n) then n else LastBoundary(p, n - 1)
  }

  function SumTxs(blocks: seq<Input>): nat {
    if blocks == [] then 0 else SumTxs(blocks[..|blocks| - 1]) + blocks[|blocks| - 1].nTxs
  }

  /** The distinct, attributable proposers that committed a positive score in blocks [lo, hi), from v4 on. */
  function Scorers(p: Params, blocks: seq<Input>, lo: nat, hi: nat): set<string>
    requires hi <= |blocks|
  {
    set i | lo <= i < hi && i + 1 >= p.v4Height && blocks[i].scoreSum > 0 && blocks[i].proposer != ""
      :: blocks[i].proposer
  }

  predicate NoDuplicates(s: seq<string>) {
    forall i, j :: 0 <= i < j < |s| ==> s[i] != s[j]
  }

  lemma {:induction false} DistinctCount(s: seq<string>, all: set<string>)
    requires NoDuplicates(s) && forall x :: x in s ==> x in all
    ensures |s| <= |all|
  {
    if s != [] {
      var init, last := s[..|s| - 1], s[|s| - 1];
      assert forall x :: x in init ==> x in all - {last};
      DistinctCount(init, all - {last});
    }
  }

  /** The open window's accumulators describe exactly the blocks since the last boundary. */
  ghost predicate Accounts(p: Params, s: State, blocks: seq<Input>, lo: nat) {
    && lo <= |blocks|
    && s.winAccepted == SumTxs(blocks[lo..])
    && NoDuplicates(s.winScorers)
    && forall x :: x in s.winScorers ==> x in Scorers(p, blocks, lo, |blocks|)
  }

  lemma {:induction false} ScorersLonger(p: Params, blocks: seq<Input>, lo: nat, e: nat, x: string)
    requires e <= |blocks| && x in Scorers(p, blocks[..e], lo, e)
    ensures x in Scorers(p, blocks, lo, |blocks|)
  {
    var init := blocks[..e];
    var i :| lo <= i < e && i + 1 >= p.v4Height && init[i].scoreSum > 0 && init[i].proposer != ""
      && init[i].proposer == x;
    assert blocks[i] == init[i];
  }

  lemma {:induction false} SumTxsLast(blocks: seq<Input>, lo: nat)
    requires lo < |blocks|
    ensures SumTxs(blocks[lo..]) == SumTxs(blocks[..|blocks| - 1][lo..]) + blocks[|blocks| - 1].nTxs
  {
    var n := |blocks| - 1;
    assert blocks[lo..][..n - lo] == blocks[..n][lo..];
  }

  lemma {:induction false} NewScorer(p: Params, blocks: seq<Input>, lo: nat)
    requires lo < |blocks| && |blocks| >= p.v4Height
    requires blocks[|blocks| - 1].scoreSum > 0 && blocks[|blocks| - 1].proposer != ""
    ensures blocks[|blocks| - 1].proposer in Scorers(p, blocks, lo, |blocks|)
  {
  }

  lemma {:induction false} AccumulateAccounts(p: Params, s: State, blocks: seq<Input>, lo: nat)
    requires blocks != [] && Accounts(p, s, blocks[..|blocks| - 1], lo) && (s.rev >= 4 ==> |blocks| > p.v4Height)
    ensures Accounts(p, Accumulate(s, p, |blocks|, blocks[|blocks| - 1]), blocks, lo)
  {
    var n, b := |blocks| - 1, blocks[|blocks| - 1];
    var a := Accumulate(s, p, |blocks|, b);
    SumTxsLast(blocks, lo);
    forall x | x in a.winScorers ensures x in Scorers(p, blocks, lo, |blocks|) {
      if x in s.winScorers {
        ScorersLonger(p, blocks, lo, n, x);
      } else {
        NewScorer(p, blocks, lo);
      }
    }
  }

  lemma {:induction false} RunAccounts(p: Params, blocks: seq<Input>)
    requires p.Valid()
    ensures Accounts(p, Run(p, blocks), blocks, LastBoundary(p, |blocks|))
    ensures Run(p, blocks).rev >= 4 ==> |blocks| >= p.v4Height
    decreases |blocks|
  {
    if blocks != [] {
      var init, b := blocks[..|blocks| - 1], blocks[|blocks| - 1];
      RunAccounts(p, init);
      if AtBoundary(p, |blocks|) {
        ClosedIsEmpty(p, Closing(p, blocks), WindowDecision(Closing(p, blocks), p), b.prevHash);
        assert blocks[|blocks|..] == [];
      } else {
        AccumulateAccounts(p, Run(p, init), blocks, LastBoundary(p, |init|));
      }
    }
  }

  lemma {:induction false} ClosedIsEmpty(p: Params, a: State, d: Decision, prevHash: nat)
    requires p.Valid() && |a.pages| >= p.spec.GenesisPages()
    ensures var u := Conclude(a, p, d, prevHash);
      u.winAccepted == 0 && u.winScorers == [] && u.rev == a.rev
  {
    AppendGrows(a.pages, DueGrowth(a.pending, a.windowId + 1), p.spec);
  }

  /** The window that closed with block e met its target and, from v4 on, had a quorum of scorers. */
  ghost predicate Healthy(p: Params, blocks: seq<Input>, e: nat)
    requires p.Valid() && 0 < e <= |blocks|
  {
    var lo := LastBoundary(p, e - 1);
    && SumTxs(blocks[lo..e]) >= p.knobs.target
    && (e >= p.v4Height ==> |Scorers(p, blocks, lo, e)| >= p.growthQuorum)
  }

  /** The m windows ending with the one that closed at block e were all healthy. */
  ghost predicate HealthyStreak(p: Params, blocks: seq<Input>, e: nat, m: nat)
    requires p.Valid() && e <= |blocks|
    decreases m
  {
    m == 0 ||
    (e > 0 && AtBoundary(p, e) && Healthy(p, blocks, e)
     && HealthyStreak(p, blocks, LastBoundary(p, e - 1), m - 1))
  }

  lemma {:induction false} HealthyExtends(p: Params, blocks: seq<Input>, n: nat, e: nat)
    requires p.Valid() && 0 < e <= n <= |blocks| && Healthy(p, blocks[..n], e)
    ensures Healthy(p, blocks, e)
  {
    var lo := LastBoundary(p, e - 1);
    assert blocks[..n][lo..e] == blocks[lo..e];
    assert Scorers(p, blocks[..n], lo, e) == Scorers(p, blocks, lo, e);
  }

  lemma {:induction false} StreakExtends(p: Params, blocks: seq<Input>, n: nat, e: nat, m: nat)
    requires p.Valid() && e <= n <= |blocks| && HealthyStreak(p, blocks[..n], e, m)
    ensures HealthyStreak(p, blocks, e, m)
    decreases m
  {
    if m > 0 {
      HealthyExtends(p, blocks, n, e);
      StreakExtends(p, blocks, n, LastBoundary(p, e - 1), m - 1);
    }
  }

  lemma {:induction false} StreakShortens(p: Params, blocks: seq<Input>, e: nat, m: nat, n: nat)
    requires p.Valid() && e <= |blocks| && n <= m && HealthyStreak(p, blocks, e, m)
    ensures HealthyStreak(p, blocks, e, n)
    decreases n
  {
    if n > 0 { StreakShortens(p, blocks, LastBoundary(p, e - 1), m - 1, n - 1); }
  }

  lemma {:induction false} SurplusFacts(quota: nat, pinned: nat, slack: nat, accepted: nat, staleness: nat, k: Knobs)
    requires k.Valid()
    ensures Decide(quota, pinned, slack, accepted, staleness, k).thawOk ==>
      accepted >= k.target && staleness <= k.staleCeiling
  {
  }

  lemma {:induction false} OpenGate(p: Params, a: State)
    requires p.knobs.staleCeiling < 10_000 && Staleness(a, p) <= p.knobs.staleCeiling
    ensures a.rev >= 4 ==> |a.winScorers| >= p.growthQuorum
  {
  }

  lemma {:induction false} ClosingAccounts(p: Params, blocks: seq<Input>)
    requires p.Valid() && blocks != []
    ensures Accounts(p, Closing(p, blocks), blocks, LastBoundary(p, |blocks| - 1))
  {
    RunAccounts(p, blocks[..|blocks| - 1]);
    AccumulateAccounts(p, Run(p, blocks[..|blocks| - 1]), blocks, LastBoundary(p, |blocks| - 1));
  }

  /** A window that counts as surplus is healthy. */
  lemma {:induction false} SurplusIsHealthy(p: Params, blocks: seq<Input>, a: State)
    requires p.Valid() && blocks != [] && Accounts(p, a, blocks, LastBoundary(p, |blocks| - 1))
    requires a.winAccepted >= p.knobs.target
    requires |blocks| >= p.v4Height ==> |a.winScorers| >= p.growthQuorum
    ensures Healthy(p, blocks, |blocks|)
  {
    var lo := LastBoundary(p, |blocks| - 1);
    assert blocks[lo..|blocks|] == blocks[lo..];
    DistinctCount(a.winScorers, Scorers(p, blocks, lo, |blocks|));
  }

  /** The pinned streak is never longer than the run of healthy windows behind it. */
  lemma {:induction false} PinnedIsHealthy(p: Params, blocks: seq<Input>)
    requires p.Valid() && p.knobs.staleCeiling < 10_000
    ensures HealthyStreak(p, blocks, LastBoundary(p, |blocks|), Run(p, blocks).pinned)
    decreases |blocks|
  {
    if blocks != [] {
      var init, b := blocks[..|blocks| - 1], blocks[|blocks| - 1];
      PinnedIsHealthy(p, init);
      StreakExtends(p, blocks, |init|, LastBoundary(p, |init|), Run(p, init).pinned);
      if AtBoundary(p, |blocks|) {
        DecidedStreak(p, blocks);
        var d := WindowDecision(Closing(p, blocks), p);
        ConcludedPinned(p, Closing(p, blocks), d, b.prevHash);
        StreakShortens(p, blocks, |blocks|, d.pinned, Run(p, blocks).pinned);
      }
    }
  }

  /** The streak the window decision reports is backed by healthy windows. */
  lemma {:induction false} DecidedStreak(p: Params, blocks: seq<Input>)
    requires p.Valid() && p.knobs.staleCeiling < 10_000 && blocks != [] && AtBoundary(p, |blocks|)
    requires HealthyStreak(p, blocks, LastBoundary(p, |blocks| - 1), Closing(p, blocks).pinned)
    ensures HealthyStreak(p, blocks, |blocks|, WindowDecision(Closing(p, blocks), p).pinned)
  {
    var a := Closing(p, blocks);
    DecideIsSound(a.quota, a.pinned, a.slack, a.winAccepted, Staleness(a, p), p.knobs);
    SurplusFacts(a.quota, a.pinned, a.slack, a.winAccepted, Staleness(a, p), p.knobs);
    if WindowDecision(a, p).thawOk {
      OpenGate(p, a);
      ClosingAccounts(p, blocks);
      SurplusIsHealthy(p, blocks, a);
    }
  }

  lemma {:induction false} ConcludedPinned(p: Params, a: State, d: Decision, prevHash: nat)
    requires p.Valid() && |a.pages| >= p.spec.GenesisPages()
    ensures var u := Conclude(a, p, d, prevHash);
      u.pinned <= d.pinned && (u.eventsTotal > a.eventsTotal ==> d.schedule)
  {
    AppendGrows(a.pages, DueGrowth(a.pending, a.windowId + 1), p.spec);
  }

  lemma {:induction false} BehindClosing(p: Params, blocks: seq<Input>)
    requires p.Valid() && p.knobs.staleCeiling < 10_000 && blocks != []
    ensures HealthyStreak(p, blocks, LastBoundary(p, |blocks| - 1), Closing(p, blocks).pinned)
  {
    var n := |blocks| - 1;
    PinnedIsHealthy(p, blocks[..n]);
    StreakExtends(p, blocks, n, LastBoundary(p, n), Run(p, blocks[..n]).pinned);
  }

  /**
   * Every scheduled growth event is preceded by kSustain consecutive windows,
   * each meeting its target and, when it closed at or after v4Height, each with
   * at least growthQuorum distinct attributable proposers with a positive score.
   */
  lemma {:induction false} GrowthNeedsQuorum(p: Params, blocks: seq<Input>)
    requires p.Valid() && p.knobs.staleCeiling < 10_000 && blocks != []
    requires Run(p, blocks).eventsTotal > Run(p, blocks[..|blocks| - 1]).eventsTotal
    ensures AtBoundary(p, |blocks|) && HealthyStreak(p, blocks, |blocks|, p.knobs.kSustain)
  {
    ScheduledByDecision(p, blocks);
    BehindClosing(p, blocks);
    DecidedStreak(p, blocks);
    StreakShortens(p, blocks, |blocks|, WindowDecision(Closing(p, blocks), p).pinned, p.knobs.kSustain);
  }

  lemma {:induction false} ScheduledByDecision(p: Params, blocks: seq<Input>)
    requires p.Valid() && blocks != []
    requires Run(p, blocks).eventsTotal > Run(p, blocks[..|blocks| - 1]).eventsTotal
    ensures AtBoundary(p, |blocks|)
    ensures WindowDecision(Closing(p, blocks), p).pinned >= p.knobs.kSustain
  {
    var a := Closing(p, blocks);
    DecideIsSound(a.quota, a.pinned, a.slack, a.winAccepted, Staleness(a, p), p.knobs);
    if AtBoundary(p, |blocks|) { ConcludedPinned(p, a, WindowDecision(a, p), blocks[|blocks| - 1].prevHash); }
  }
}
