/**
 * The controller over whole runs, on the blocks' own counts: what each window
 * accepted, whether its gate was open, how long the streaks are, and so exactly
 * when a page freezes, thaws or is scheduled.
 */
module StreakLaw {
  import opened Capacity
  import opened DecisionLaw
  import opened ModelState
  import opened PageTableLaw
  import opened WindowLaw
  import opened GrowthLaw

  /** The state after the first n blocks. */
  function At(p: Params, blocks: seq<Input>, n: nat): State
    requires p.Valid() && n <= |blocks|
  {
    Run(p, blocks[..n])
  }

  /** A run starts at quota 10000, with no streak, nothing announced, and the genesis pages awake. */
  lemma {:induction false} StartsAt(p: Params, id: nat)
    requires p.Valid()
    ensures var s := At(p, [], 0);
      && s.quota == 10_000 && s.pinned == 0 && s.slack == 0 && s.pending == [] && s.windowId == 0
      && s.eventsTotal == 0 && |s.pages| == 1 + p.spec.nLayers * p.spec.nExpertsInitial
      && (id < |s.pages| ==> s.pages[id].active)
  {
    GenesisPagesAre(p.spec);
  }

  lemma {:induction false} RunStep(p: Params, blocks: seq<Input>)
    requires p.Valid() && blocks != []
    ensures var s := Run(p, blocks[..|blocks| - 1]);
      Law(p, s) && Run(p, blocks) == Fold(s, p, |blocks|, blocks[|blocks| - 1])
  {
    RunLaw(p, blocks[..|blocks| - 1]);
  }

  lemma {:induction false} AtStep(p: Params, blocks: seq<Input>, n: nat)
    requires p.Valid() && 0 < n <= |blocks|
    ensures Law(p, At(p, blocks, n - 1)) && At(p, blocks, n) == Fold(At(p, blocks, n - 1), p, n, blocks[n - 1])
  {
    var some := blocks[..n];
    assert some[..n - 1] == blocks[..n - 1];
    RunStep(p, some);
  }

  /** Where the window that is open after n blocks began. */
  ghost function Opening(p: Params, n: nat): (lo: nat)
    requires p.window > 0
    ensures lo <= n
  {
    CycleBelow(n, p.window);
    n - Cycle(n, p.window)
  }

  lemma {:induction false} CycleBelow(n: nat, w: nat)
    requires w > 0
    ensures Cycle(n, w) <= n && Cycle(n, w) < w
  {
    if n >= w { CycleBelow(n - w, w); }
  }

  lemma {:induction false} CycleStep(n: nat, w: nat)
    requires n > 0 && w > 0
    ensures Cycle(n, w) == 0 ==> n >= w && Cycle(n - w, w) == 0 && Cycle(n - 1, w) == w - 1
    ensures Cycle(n, w) != 0 ==> Cycle(n - 1, w) == Cycle(n, w) - 1
  {
    if n > w { CycleStep(n - w, w); }
  }

  /** A window closes with every block whose height is a positive multiple of the window length. */
  lemma {:induction false} BoundaryIs(p: Params, n: nat)
    requires p.Valid()
    ensures AtBoundary(p, n) <==> n > 0 && n % p.window == 0
  {
    CycleIsMod(n, p.window);
  }

  lemma {:induction false} OpeningStep(p: Params, n: nat)
    requires p.Valid() && n > 0
    ensures Opening(p, n) == if AtBoundary(p, n) then n else Opening(p, n - 1)
    ensures AtBoundary(p, n) ==> n >= p.window && Opening(p, n - 1) == n - p.window
  {
    CycleStep(n, p.window);
  }

  // ---- what the blocks of a window carried ----

  /** Accepted deltas of blocks [lo, hi). */
  ghost function Txs(blocks: seq<Input>, lo: nat, hi: nat): nat
    requires lo <= hi <= |blocks|
  {
    if lo == hi then 0 else Txs(blocks, lo, hi - 1) + blocks[hi - 1].nTxs
  }

  /** Deltas of blocks [lo, hi) that scored zero. */
  ghost function Zeros(blocks: seq<Input>, lo: nat, hi: nat): nat
    requires lo <= hi <= |blocks|
  {
    if lo == hi then 0 else Zeros(blocks, lo, hi - 1) + blocks[hi - 1].zeroScored
  }

  /** Some block of [lo, hi) at or above the given height committed a positive score. */
  ghost predicate Learned(blocks: seq<Input>, lo: nat, hi: nat, height: nat)
    requires lo <= hi <= |blocks|
  {
    exists i :: lo <= i < hi && i + 1 >= height && blocks[i].scoreSum > 0
  }

  /**
   * The growth gate of the window [lo, hi): from v4Height on a quorum of distinct
   * scorers, from v3Height on any positive score, before that few enough zero scores.
   */
  ghost predicate GateOpen(p: Params, blocks: seq<Input>, lo: nat, hi: nat)
    requires lo <= hi <= |blocks|
  {
    if hi >= p.v4Height then |Scorers(p, blocks, lo, hi)| >= p.growthQuorum || p.knobs.staleCeiling >= 10_000
    else if hi >= p.v3Height then Learned(blocks, lo, hi, p.v3Height) || p.knobs.staleCeiling >= 10_000
    else
      var accepted := if Txs(blocks, lo, hi) == 0 then 1 else Txs(blocks, lo, hi);
      Zeros(blocks, lo, hi) * 10_000 < p.knobs.staleCeiling * accepted + accepted
  }

  /** The open window's accumulators, exactly. */
  ghost predicate Tallied(p: Params, blocks: seq<Input>, lo: nat, n: nat, s: State)
    requires lo <= n <= |blocks|
  {
    && s.winAccepted == Txs(blocks, lo, n) && s.winZeroScored == Zeros(blocks, lo, n)
    && s.rev == (if n == 0 then 2 else if n >= p.v4Height then 4 else if n >= p.v3Height then 3 else 2)
    && (n < p.v4Height ==> (s.winScoreSum > 0 <==> Learned(blocks, lo, n, p.v3Height)))
    && NoDuplicates(s.winScorers) && (forall x :: x in s.winScorers ==> x in Scorers(p, blocks, lo, n))
    && (|s.winScorers| >= p.growthQuorum || forall x :: x in Scorers(p, blocks, lo, n) ==> x in s.winScorers)
  }

  lemma {:induction false} ScorersStep(p: Params, blocks: seq<Input>, lo: nat, n: nat)
    requires lo < n <= |blocks|
    ensures Scorers(p, blocks, lo, n) == Scorers(p, blocks, lo, n - 1)
      + if n >= p.v4Height && blocks[n - 1].scoreSum > 0 && blocks[n - 1].proposer != ""
        then {blocks[n - 1].proposer} else {}
  {
    var before, b := Scorers(p, blocks, lo, n - 1), blocks[n - 1];
    forall x | x in Scorers(p, blocks, lo, n)
      ensures x in before || (n >= p.v4Height && b.scoreSum > 0 && b.proposer != "" && x == b.proposer)
    {
      var i :| lo <= i < n && i + 1 >= p.v4Height && blocks[i].scoreSum > 0 && blocks[i].proposer != ""
        && blocks[i].proposer == x;
    }
  }

  lemma {:induction false} LearnedStep(blocks: seq<Input>, lo: nat, n: nat, height: nat)
    requires lo < n <= |blocks|
    ensures Learned(blocks, lo, n, height)
      <==> Learned(blocks, lo, n - 1, height) || (n >= height && blocks[n - 1].scoreSum > 0)
  {
    if i :| lo <= i < n && i + 1 >= height && blocks[i].scoreSum > 0 { assert blocks[i].scoreSum > 0; }
    if n >= height && blocks[n - 1].scoreSum > 0 { assert blocks[n - 1].scoreSum > 0; }
  }

  lemma {:induction false} TallyStep(p: Params, blocks: seq<Input>, lo: nat, n: nat, s: State)
    requires lo < n <= |blocks| && Tallied(p, blocks, lo, n - 1, s)
    ensures Tallied(p, blocks, lo, n, Accumulate(s, p, n, blocks[n - 1]))
  {
    ScorersStep(p, blocks, lo, n);
    LearnedStep(blocks, lo, n, p.v3Height);
  }

  /** In every run the accumulators describe exactly the blocks since the last boundary. */
  lemma {:induction false} RunTallied(p: Params, blocks: seq<Input>, n: nat)
    requires p.Valid() && n <= |blocks|
    ensures Tallied(p, blocks, Opening(p, n), n, At(p, blocks, n))
  {
    if n > 0 {
      RunTallied(p, blocks, n - 1);
      OpeningStep(p, n);
      AtStep(p, blocks, n);
      TallyFold(p, blocks, Opening(p, n - 1), n, At(p, blocks, n - 1));
    }
  }

  lemma {:induction false} TallyFold(p: Params, blocks: seq<Input>, lo: nat, n: nat, s: State)
    requires p.Valid() && lo < n <= |blocks| && Tallied(p, blocks, lo, n - 1, s) && Law(p, s)
    ensures Tallied(p, blocks, if AtBoundary(p, n) then n else lo, n, Fold(s, p, n, blocks[n - 1]))
  {
    TallyStep(p, blocks, lo, n, s);
    if AtBoundary(p, n) { BoundaryCleared(p, blocks, n, Accumulate(s, p, n, blocks[n - 1])); }
  }

  lemma {:induction false} BoundaryCleared(p: Params, blocks: seq<Input>, n: nat, a: State)
    requires p.Valid() && |a.pages| >= p.spec.GenesisPages() && 0 < n <= |blocks|
    requires a.rev == (if n >= p.v4Height then 4 else if n >= p.v3Height then 3 else 2)
    ensures Tallied(p, blocks, n, n, Boundary(a, p, blocks[n - 1].prevHash))
  {
    AppendGrows(a.pages, DueGrowth(a.pending, a.windowId + 1), p.spec);
  }

  lemma {:induction false} Ratio(zeros: nat, accepted: nat, ceiling: nat)
    requires accepted > 0
    ensures zeros * 10_000 / accepted <= ceiling <==> zeros * 10_000 < ceiling * accepted + accepted
  {
    var x := zeros * 10_000;
    var q := x / accepted;
    Quotient(x, accepted);
    if q > ceiling { Farther(q, ceiling, accepted); }
    if q < ceiling { Farther(ceiling, q, accepted); }
  }

  lemma {:induction false} DistinctAll(s: seq<string>, all: set<string>)
    requires NoDuplicates(s) && (forall x :: x in s ==> x in all) && forall x :: x in all ==> x in s
    ensures |s| == |all|
  {
    if s == [] {
      assert all == {};
    } else {
      var init, last := s[..|s| - 1], s[|s| - 1];
      assert forall x :: x in init ==> x in all - {last};
      DistinctAll(init, all - {last});
    }
  }

  /** The gate of the closing state is the gate of its window's blocks. */
  lemma {:induction false} GateIs(p: Params, blocks: seq<Input>, lo: nat, n: nat, a: State)
    requires 0 < n && lo <= n <= |blocks| && Tallied(p, blocks, lo, n, a)
    ensures Staleness(a, p) <= p.knobs.staleCeiling <==> GateOpen(p, blocks, lo, n)
  {
    var all := Scorers(p, blocks, lo, n);
    if n >= p.v4Height {
      DistinctCount(a.winScorers, all);
      if |a.winScorers| < p.growthQuorum { DistinctAll(a.winScorers, all); }
    } else if n < p.v3Height {
      Ratio(a.winZeroScored, if a.winAccepted < 1 then 1 else a.winAccepted, p.knobs.staleCeiling);
    }
  }

  // ---- windows of a run ----

  /** The pages that never freeze: the backbone and every layer's first experts. */
  lemma {:induction false} GenesisPagesAre(spec: Spec)
    ensures spec.GenesisPages() == 1 + spec.nLayers * spec.nExpertsInitial
  {
    ExpertsBelowIs(spec, spec.nLayers);
  }

  lemma {:induction false} Earlier(p: Params, n: nat)
    requires p.Valid() && AtBoundary(p, n)
    ensures n >= p.window && (n - p.window == 0 || AtBoundary(p, n - p.window))
    ensures Opening(p, n - 1) == n - p.window
  {
    CycleStep(n, p.window);
  }

  /** The deltas accepted in the window that block n closes. */
  ghost function Accepted(p: Params, blocks: seq<Input>, n: nat): nat
    requires p.window > 0 && p.window <= n <= |blocks|
  {
    Txs(blocks, n - p.window, n)
  }

  /** Every window of every run turns the state as its blocks' counts say. */
  lemma {:induction false} RunTurns(
    p: Params, blocks: seq<Input>, n: nat, base: nat, next: nat, s: State, t: State, accepted: nat, open: bool)
    requires p.Valid() && n <= |blocks| && AtBoundary(p, n) && n >= p.window && base == p.spec.GenesisPages()
    requires s == At(p, blocks, n - 1) && t == At(p, blocks, n)
    requires accepted == Accepted(p, blocks, n) && open == GateOpen(p, blocks, n - p.window, n)
    requires Steps(p.knobs, 4, s.quota, accepted, next)
    ensures Turns(p, base, s, accepted, open, next, blocks[n - 1].prevHash, t)
  {
    var a := Closing(p, blocks, n, s, t, open);
    BoundaryTurns(p, a, blocks[n - 1].prevHash, base, next);
    TurnsFrom(p, base, a, s, accepted, open, next, blocks[n - 1].prevHash, t);
  }

  /** The state the closing block's decision sees. */
  lemma {:induction false} Closing(p: Params, blocks: seq<Input>, n: nat, s: State, t: State, open: bool)
    returns (a: State)
    requires p.Valid() && n <= |blocks| && AtBoundary(p, n) && n >= p.window
    requires s == At(p, blocks, n - 1) && t == At(p, blocks, n) && open == GateOpen(p, blocks, n - p.window, n)
    ensures Law(p, a) && t == Boundary(a, p, blocks[n - 1].prevHash)
    ensures a.winAccepted == Accepted(p, blocks, n) && (Staleness(a, p) <= p.knobs.staleCeiling <==> open)
    ensures a.pages == s.pages && a.pending == s.pending && a.windowId == s.windowId && a.quota == s.quota
    ensures a.pinned == s.pinned && a.slack == s.slack && a.eventsTotal == s.eventsTotal
  {
    a := Accumulate(s, p, n, blocks[n - 1]);
    AtStep(p, blocks, n);
    AccumulateKeepsLaw(p, s, n, blocks[n - 1]);
    ClosingTally(p, blocks, n - p.window, n, s);
    GateIs(p, blocks, n - p.window, n, a);
  }

  lemma {:induction false} ClosingTally(p: Params, blocks: seq<Input>, lo: nat, n: nat, s: State)
    requires p.Valid() && n <= |blocks| && AtBoundary(p, n) && n >= p.window && lo == n - p.window
    requires s == At(p, blocks, n - 1)
    ensures Tallied(p, blocks, lo, n, Accumulate(s, p, n, blocks[n - 1]))
  {
    OpeningStep(p, n);
    RunTallied(p, blocks, n - 1);
    TallyStep(p, blocks, lo, n, s);
  }

  /** The accumulators of the state before a window do not matter. */
  lemma {:induction false} TurnsFrom(
    p: Params, base: nat, a: State, s: State, accepted: nat, open: bool, next: nat, prevHash: nat, t: State)
    requires p.spec.nLayers > 0 && Turns(p, base, a, accepted, open, next, prevHash, t)
    requires a.pages == s.pages && a.pending == s.pending && a.windowId == s.windowId && a.quota == s.quota
    requires a.pinned == s.pinned && a.slack == s.slack && a.eventsTotal == s.eventsTotal
    ensures Turns(p, base, s, accepted, open, next, prevHash, t)
  {
  }

  /** Between boundaries only the accumulators and the rev move. */
  lemma {:induction false} RunRests(p: Params, blocks: seq<Input>, n: nat)
    requires p.Valid() && 0 < n <= |blocks| && !AtBoundary(p, n)
    ensures var s, t := At(p, blocks, n - 1), At(p, blocks, n);
      && t.pages == s.pages && t.quota == s.quota && t.pinned == s.pinned && t.slack == s.slack
      && t.pending == s.pending && t.windowId == s.windowId && t.eventsTotal == s.eventsTotal
  {
    AtStep(p, blocks, n);
  }

  // ---- what a window was ----

  // ---- the history of a run ----

  /**
   * After n blocks: the state and, when block n closes a window, what the window
   * accepted, whether its gate was open, and the quota after the damped step.
   */
  datatype Account = Account(state: State, accepted: nat, open: bool, next: nat)

  ghost predicate Tells(p: Params, blocks: seq<Input>, h: seq<Account>, n: nat)
    requires p.Valid() && n <= |blocks| < |h|
  {
    && h[n].state == Run(p, blocks[..n])
    && (AtBoundary(p, n) && n >= p.window ==>
          && h[n].accepted == Txs(blocks, n - p.window, n)
          && h[n].open == GateOpen(p, blocks, n - p.window, n)
          && Steps(p.knobs, 4, h[n - 1].state.quota, h[n].accepted, h[n].next))
  }

  /** h is the history of the run: every run has one (HistoryOf), and only one (OneHistory). */
  ghost predicate History(p: Params, blocks: seq<Input>, h: seq<Account>)
    requires p.Valid()
  {
    |h| == |blocks| + 1 && forall n: nat {:trigger Tells(p, blocks, h, n)} :: n <= |blocks| ==> Tells(p, blocks, h, n)
  }

  ghost function AccountOf(p: Params, blocks: seq<Input>, n: nat): Account
    requires p.Valid() && n <= |blocks|
  {
    if n < p.window then Account(At(p, blocks, n), 0, false, 0)
    else Account(At(p, blocks, n), Accepted(p, blocks, n), GateOpen(p, blocks, n - p.window, n),
      NextQuota(At(p, blocks, n - 1).quota, Accepted(p, blocks, n), p.knobs))
  }

  lemma {:induction false} HistoryOf(p: Params, blocks: seq<Input>) returns (h: seq<Account>)
    requires p.Valid()
    ensures History(p, blocks, h)
  {
    h := seq(|blocks| + 1, n requires 0 <= n <= |blocks| => AccountOf(p, blocks, n));
    forall n: nat | n <= |blocks| ensures Tells(p, blocks, h, n) {
      if n >= p.window { QuotaSteps(p.knobs, At(p, blocks, n - 1).quota, Accepted(p, blocks, n)); }
    }
  }

  lemma {:induction false} OneHistory(p: Params, blocks: seq<Input>, h: seq<Account>, k: seq<Account>, n: nat)
    requires p.Valid() && History(p, blocks, h) && History(p, blocks, k) && n <= |blocks|
    ensures h[n].state == k[n].state
    ensures AtBoundary(p, n) && n >= p.window ==> h[n] == k[n]
  {
    assert Tells(p, blocks, h, n) && Tells(p, blocks, k, n);
    if AtBoundary(p, n) && n >= p.window {
      assert Tells(p, blocks, h, n - 1) && Tells(p, blocks, k, n - 1);
      OneStep(p.knobs, 4, h[n - 1].state.quota, h[n].accepted, h[n].next, k[n].next);
    }
  }

  /** The blocks that close a window of decline. */
  ghost function Declined(p: Params, h: seq<Account>): set<nat>
    requires p.window > 0
  {
    set n: nat | p.window <= n < |h| && AtBoundary(p, n) && Deficit(p.knobs, h[n].next, h[n].accepted)
  }

  /** The blocks that close a window of surplus. */
  ghost function Pressed(p: Params, h: seq<Account>): set<nat>
    requires p.window > 0
  {
    set n: nat | p.window <= n < |h| && AtBoundary(p, n) && Surplus(p.knobs, h[n].next, h[n].accepted, h[n].open)
  }

  ghost predicate Froze(h: seq<Account>, n: nat)
    requires 0 < n < |h|
  {
    SomeSleeps(h[n - 1].state.pages, h[n].state.pages)
  }

  ghost predicate Thawed(h: seq<Account>, n: nat)
    requires 0 < n < |h|
  {
    SomeWakes(h[n - 1].state.pages, h[n].state.pages)
  }

  ghost predicate Scheduled(h: seq<Account>, n: nat)
    requires 0 < n < |h|
  {
    h[n].state.eventsTotal > h[n - 1].state.eventsTotal
  }

  /** The blocks that froze a page, and so used a streak of decline. */
  ghost function Freezes(h: seq<Account>): set<nat> { set n: nat | 0 < n < |h| && Froze(h, n) }

  /** The blocks that thawed a page or announced one, and so used a streak of surplus. */
  ghost function Uses(h: seq<Account>): set<nat> { set n: nat | 0 < n < |h| && (Thawed(h, n) || Scheduled(h, n)) }

  /** How many windows, going back from the one that n closes, are hits, as far as the last use. */
  ghost function Unbroken(hits: set<nat>, uses: set<nat>, window: nat, n: nat): nat
    requires window > 0
    decreases n
  {
    if n < window || n in uses || n !in hits then 0 else Unbroken(hits, uses, window, n - window) + 1
  }

  /** The m windows ending with the one that n closes are all hits. */
  ghost predicate Consecutive(hits: set<nat>, window: nat, n: nat, m: nat) {
    m == 0 || (n >= window && n in hits && Consecutive(hits, window, n - window, m - 1))
  }

  lemma {:induction false} UnbrokenIsConsecutive(hits: set<nat>, uses: set<nat>, window: nat, n: nat, m: nat)
    requires window > 0 && m <= Unbroken(hits, uses, window, n)
    ensures Consecutive(hits, window, n, m)
    decreases n
  {
    if m > 0 { UnbrokenIsConsecutive(hits, uses, window, n - window, m - 1); }
  }

  /** A streak as the window that n closes leaves it, before it is used. */
  ghost function Streak(hits: set<nat>, uses: set<nat>, window: nat, n: nat): nat
    requires 0 < window <= n
  {
    if n in hits then Unbroken(hits, uses, window, n - window) + 1 else 0
  }

  lemma {:induction false} StreakAt(hits: set<nat>, uses: set<nat>, window: nat, n: nat, was: nat)
    returns (streak: nat)
    requires 0 < window <= n && was == Unbroken(hits, uses, window, n - window)
    ensures streak == Streak(hits, uses, window, n) && streak == if n in hits then was + 1 else 0
  {
    streak := Streak(hits, uses, window, n);
  }

  lemma {:induction false} StreakIsConsecutive(hits: set<nat>, uses: set<nat>, window: nat, n: nat, m: nat)
    requires 0 < window <= n && m <= Streak(hits, uses, window, n)
    ensures Consecutive(hits, window, n, m)
  {
    if m > 0 { UnbrokenIsConsecutive(hits, uses, window, n - window, m - 1); }
  }

  // ---- exactly when ----

  /** What a boundary's window does, in the run's own terms. */
  lemma {:induction false} WindowActs(p: Params, blocks: seq<Input>, h: seq<Account>, n: nat, base: nat)
    requires p.Valid() && History(p, blocks, h) && 0 < n <= |blocks| && AtBoundary(p, n)
    requires base == p.spec.GenesisPages()
    ensures var s, t := h[n - 1].state, h[n].state;
      var pinned := if n in Pressed(p, h) then s.pinned + 1 else 0;
      var slack := if n in Declined(p, h) then s.slack + 1 else 0;
      && ThawsLowest(s.pages, t.pages, base, n in Pressed(p, h) && AnyAsleep(s.pages, base))
      && FreezesNewest(s.pages, t.pages, base, slack >= p.knobs.kSustain && (AnyAwake(s.pages, base) || Ripe(s)))
      && (Scheduled(h, n)
          <==> !Thawed(h, n) && pinned >= p.knobs.kSustain && (s.pending == [] || Ripe(s)))
      && t.pinned == (if n in Uses(h) then 0 else pinned)
      && t.slack == (if n in Freezes(h) then 0 else slack)
  {
    HistoryTurns(p, blocks, h, n, base);
  }

  /** Every window of a history turns the state as its account says. */
  lemma {:induction false} HistoryTurns(p: Params, blocks: seq<Input>, h: seq<Account>, n: nat, base: nat)
    requires p.Valid() && History(p, blocks, h) && 0 < n <= |blocks| && AtBoundary(p, n)
    requires base == p.spec.GenesisPages()
    ensures n >= p.window
    ensures Turns(p, base, h[n - 1].state, h[n].accepted, h[n].open, h[n].next, blocks[n - 1].prevHash, h[n].state)
  {
    Told(p, blocks, h, n);
    RunTurns(p, blocks, n, base, h[n].next, h[n - 1].state, h[n].state, h[n].accepted, h[n].open);
  }

  lemma {:induction false} Told(p: Params, blocks: seq<Input>, h: seq<Account>, n: nat)
    requires p.Valid() && History(p, blocks, h) && 0 < n <= |blocks| && AtBoundary(p, n)
    ensures n >= p.window && h[n - 1].state == At(p, blocks, n - 1) && h[n].state == At(p, blocks, n)
    ensures h[n].accepted == Accepted(p, blocks, n) && h[n].open == GateOpen(p, blocks, n - p.window, n)
    ensures Steps(p.knobs, 4, h[n - 1].state.quota, h[n].accepted, h[n].next)
  {
    Earlier(p, n);
    assert Tells(p, blocks, h, n - 1) && Tells(p, blocks, h, n);
  }

  /** Between boundaries nothing moves. */
  lemma {:induction false} Rests(p: Params, blocks: seq<Input>, h: seq<Account>, n: nat)
    requires p.Valid() && History(p, blocks, h) && 0 < n <= |blocks| && !AtBoundary(p, n)
    ensures var s, t := h[n - 1].state, h[n].state;
      && t.pages == s.pages && t.quota == s.quota && t.pinned == s.pinned && t.slack == s.slack
      && t.pending == s.pending && t.windowId == s.windowId && t.eventsTotal == s.eventsTotal
  {
    assert Tells(p, blocks, h, n - 1) && Tells(p, blocks, h, n);
    RunRests(p, blocks, n);
  }

  /**
   * Over every run the deficit streak counts the windows of decline since the last
   * freeze, and the surplus streak the windows of surplus since the last thaw or announcement.
   */
  lemma {:induction false} StreaksCount(p: Params, blocks: seq<Input>, h: seq<Account>, n: nat)
    requires p.Valid() && History(p, blocks, h) && n <= |blocks|
    ensures h[n].state.slack
      == Unbroken(Declined(p, h), Freezes(h), p.window, Opening(p, n))
    ensures h[n].state.pinned
      == Unbroken(Pressed(p, h), Uses(h), p.window, Opening(p, n))
  {
    if n == 0 {
      assert Tells(p, blocks, h, 0);
    } else {
      StreaksCount(p, blocks, h, n - 1);
      OpeningStep(p, n);
      if AtBoundary(p, n) {
        WindowActs(p, blocks, h, n, p.spec.GenesisPages());
      } else {
        Rests(p, blocks, h, n);
      }
    }
  }

  /** The streaks as the window that n closes leaves them. */
  lemma {:induction false} Streaks(p: Params, blocks: seq<Input>, h: seq<Account>, n: nat)
    returns (slack: nat, pinned: nat)
    requires p.Valid() && History(p, blocks, h) && 0 < n <= |blocks| && AtBoundary(p, n)
    ensures n >= p.window
    ensures slack == Streak(Declined(p, h), Freezes(h), p.window, n)
    ensures pinned == Streak(Pressed(p, h), Uses(h), p.window, n)
    ensures slack == if n in Declined(p, h) then h[n - 1].state.slack + 1 else 0
    ensures pinned == if n in Pressed(p, h) then h[n - 1].state.pinned + 1 else 0
  {
    Earlier(p, n);
    StreaksCount(p, blocks, h, n - 1);
    slack := StreakAt(Declined(p, h), Freezes(h), p.window, n, h[n - 1].state.slack);
    pinned := StreakAt(Pressed(p, h), Uses(h), p.window, n, h[n - 1].state.pinned);
  }

  /** A boundary's window, in terms of the streaks. */
  lemma {:induction false} StreaksAct(p: Params, blocks: seq<Input>, h: seq<Account>, n: nat, base: nat)
    returns (slack: nat, pinned: nat)
    requires p.Valid() && History(p, blocks, h) && 0 < n <= |blocks| && AtBoundary(p, n)
    requires base == p.spec.GenesisPages()
    ensures n >= p.window
    ensures slack == Streak(Declined(p, h), Freezes(h), p.window, n)
    ensures pinned == Streak(Pressed(p, h), Uses(h), p.window, n)
    ensures var s, t := h[n - 1].state, h[n].state;
      && FreezesNewest(s.pages, t.pages, base, slack >= p.knobs.kSustain && (AnyAwake(s.pages, base) || Ripe(s)))
      && (Scheduled(h, n)
          <==> !Thawed(h, n) && pinned >= p.knobs.kSustain && (s.pending == [] || Ripe(s)))
  {
    slack, pinned := Streaks(p, blocks, h, n);
    WindowActs(p, blocks, h, n, base);
  }

  lemma {:induction false} NoSleeper(s: seq<Page>)
    ensures !SomeSleeps(s, s) && !SomeWakes(s, s)
  {
  }

  /**
   * Over every run: block n freezes a page exactly when it closes a window, the
   * streak of declining windows since the last freeze has reached kSustain, and a
   * grown page is awake or just opened. It freezes the newest such page and no other.
   */
  lemma {:induction false} FreezesExactly(p: Params, blocks: seq<Input>, h: seq<Account>, n: nat, base: nat)
    requires p.Valid() && History(p, blocks, h) && 0 < n <= |blocks| && base == p.spec.GenesisPages()
    ensures var s, t := h[n - 1].state, h[n].state;
      && (Froze(h, n) <==>
            && AtBoundary(p, n) && n >= p.window
            && Streak(Declined(p, h), Freezes(h), p.window, n) >= p.knobs.kSustain
            && (AnyAwake(s.pages, base) || Ripe(s)))
      && FreezesNewest(s.pages, t.pages, base, Froze(h, n))
  {
    if AtBoundary(p, n) {
      var slack, pinned := StreaksAct(p, blocks, h, n, base);
    } else {
      Rests(p, blocks, h, n);
      NoSleeper(h[n].state.pages);
    }
  }

  /** A page wakes exactly at the end of a window of surplus with a page asleep, and it is the lowest asleep. */
  lemma {:induction false} ThawsExactly(p: Params, blocks: seq<Input>, h: seq<Account>, n: nat, base: nat)
    requires p.Valid() && History(p, blocks, h) && 0 < n <= |blocks| && base == p.spec.GenesisPages()
    ensures var s, t := h[n - 1].state, h[n].state;
      && (Thawed(h, n) <==> n in Pressed(p, h) && AnyAsleep(s.pages, base))
      && ThawsLowest(s.pages, t.pages, base, Thawed(h, n))
  {
    if AtBoundary(p, n) {
      WindowActs(p, blocks, h, n, base);
    } else {
      Rests(p, blocks, h, n);
      NoSleeper(h[n].state.pages);
    }
  }

  /** Growth is announced exactly when the surplus streak has reached kSustain, and nothing thaws or is announced. */
  lemma {:induction false} SchedulesExactly(p: Params, blocks: seq<Input>, h: seq<Account>, n: nat, base: nat)
    requires p.Valid() && History(p, blocks, h) && 0 < n <= |blocks| && base == p.spec.GenesisPages()
    ensures var s := h[n - 1].state;
      Scheduled(h, n) <==>
        && AtBoundary(p, n) && n >= p.window
        && Streak(Pressed(p, h), Uses(h), p.window, n) >= p.knobs.kSustain
        && !Thawed(h, n) && (s.pending == [] || Ripe(s))
  {
    if AtBoundary(p, n) {
      var slack, pinned := StreaksAct(p, blocks, h, n, base);
    } else {
      Rests(p, blocks, h, n);
    }
  }

  /**
   * No page freezes but at the end of kSustain consecutive windows, each with fewer
   * deltas than the target and a stepped quota of at most 105 hundredths of the floor.
   */
  lemma {:induction false} FreezeNeedsDecline(p: Params, blocks: seq<Input>, h: seq<Account>, n: nat)
    requires p.Valid() && History(p, blocks, h) && 0 < n <= |blocks| && Froze(h, n)
    ensures AtBoundary(p, n) && Consecutive(Declined(p, h), p.window, n, p.knobs.kSustain)
  {
    FreezesExactly(p, blocks, h, n, p.spec.GenesisPages());
    StreakIsConsecutive(Declined(p, h), Freezes(h), p.window, n, p.knobs.kSustain);
  }

  /**
   * No growth is announced but at the end of kSustain consecutive windows, each
   * meeting the target with its gate open and the stepped quota at the ceiling.
   */
  lemma {:induction false} GrowthNeedsSurplus(p: Params, blocks: seq<Input>, h: seq<Account>, n: nat)
    requires p.Valid() && History(p, blocks, h) && 0 < n <= |blocks| && Scheduled(h, n)
    ensures AtBoundary(p, n) && Consecutive(Pressed(p, h), p.window, n, p.knobs.kSustain)
  {
    SchedulesExactly(p, blocks, h, n, p.spec.GenesisPages());
    StreakIsConsecutive(Pressed(p, h), Uses(h), p.window, n, p.knobs.kSustain);
  }
}
