/**
 * Why newest-first freezing asks for a positive streak length and a lead no
 * longer than the streak: without either, a run leaves an active page behind a
 * frozen one.
 */
module LifoNeeds {
  import opened Capacity
  import opened ModelState
  import opened PageTableLaw
  import opened CapacityLaw
  import opened WindowSteps
  import opened NoSustain
  import opened StallReached

  /** No cut separates the active from the frozen pages. */
  ghost predicate Broken(p: Params, s: State)
    requires p.Valid()
  {
    forall c: nat :: !FrozenFrom(s.pages, p.spec.GenesisPages(), c)
  }

  lemma {:induction false} FrozenBeforeActive(p: Params, s: State, i: nat)
    requires p.Valid() && i + 1 < |s.pages| && !s.pages[i].active && s.pages[i + 1].active
    ensures Broken(p, s)
  {
    assert forall c: nat :: FrozenFrom(s.pages, p.spec.GenesisPages(), c) ==> (s.pages[i].active <==> i < c);
  }

  // ---- a streak length of zero ----

  /** Swapping the first frozen for the last active page leaves them the wrong way round. */
  lemma {:induction false} SwapBreaks(p: Params, s: State, d: Decision, prev: nat, c: nat)
    requires p.Valid() && Stuck(p, s) && d.thawOk && d.freeze && FrozenFrom(s.pages, p.spec.GenesisPages(), c)
    ensures Broken(p, Conclude(s, p, d, prev))
  {
    CutPoint(s.pages, p.spec.GenesisPages(), c);
    NothingDue(s.windowId + 1);
    FrozenBeforeActive(p, Conclude(s, p, d, prev), c - 1);
  }

  /** For every lead and band, a streak of zero breaks the freeze order in some run. */
  lemma {:induction false} NoStreakBreaksLifo(p: Params) returns (blocks: seq<Input>)
    requires OneBlock(p)
    ensures Broken(p, Run(p, blocks))
  {
    blocks := StallReachable(p);
    var s := Run(p, blocks);
    if c: nat :| FrozenFrom(s.pages, p.spec.GenesisPages(), c) {
      var more := blocks + [SurgeBlock(p)];
      assert more[..|blocks|] == blocks;
      AlwaysClosed(p, more);
      var a := Closing(p, more);
      Settled(p, blocks);
      SurgeIsDemandAt(p, s, a, |more|);
      StalledDecision(a.quota, a.pinned, a.slack, a.winAccepted, Staleness(a, p), p.knobs);
      SwapBreaks(p, a, WindowDecision(a, p), 0, c);
      blocks := more;
    }
  }

  lemma {:induction false} AlwaysClosed(p: Params, blocks: seq<Input>)
    requires p.Valid() && p.window == 1 && blocks != []
    ensures AtBoundary(p, |blocks|)
  {
    CycleIsMod(|blocks|, 1);
  }

  /** With one-block windows nothing is left over between blocks. */
  lemma {:induction false} Settled(p: Params, blocks: seq<Input>)
    requires p.Valid() && p.window == 1
    ensures var s := Run(p, blocks); s.winAccepted == 0 && s.winZeroScored == 0 && s.winScorers == []
  {
    if blocks != [] {
      AlwaysClosed(p, blocks);
      ClosedAll(p, Closing(p, blocks), WindowDecision(Closing(p, blocks), p), blocks[|blocks| - 1].prevHash);
    }
  }

  lemma {:induction false} ClosedAll(p: Params, a: State, d: Decision, prev: nat)
    requires p.Valid() && |a.pages| >= p.spec.GenesisPages()
    ensures var u := Conclude(a, p, d, prev); u.winAccepted == 0 && u.winZeroScored == 0 && u.winScorers == []
  {
    AppendGrows(a.pages, DueGrowth(a.pending, a.windowId + 1), p.spec);
  }

  lemma {:induction false} SurgeIsDemandAt(p: Params, s: State, a: State, height: nat)
    requires OneBlock(p) && s.winAccepted == 0 && s.winZeroScored == 0 && s.winScorers == []
    requires a == Accumulate(s, p, height, SurgeBlock(p)) && p.knobs.quotaMin <= s.quota <= p.knobs.quotaMax
    ensures a.winAccepted > p.knobs.target && Staleness(a, p) == 0
  {
    SurgeLifts(s.quota, Surge(p.knobs), p.knobs);
  }

  // ---- a lead longer than the streak ----

  /** Small parameters whose lead is one window longer than the streak. */
  ghost predicate Patient(p: Params) {
    && p.Valid() && p.spec.GenesisPages() == 1 && p.spec.nLayers == 1 && p.window == 1 && p.announceLead == 2
    && p.knobs.quotaMin == 10_000 && p.knobs.quotaMax == 10_000 && p.knobs.target == 1
    && p.knobs.staleCeiling == 0 && p.knobs.kSustain == 1 && p.v3Height == 100 && p.v4Height == 100
  }

  lemma {:induction false} PatientExists() returns (p: Params)
    ensures Patient(p)
  {
    p := EAGER.(announceLead := 2, knobs := EAGER.knobs.(kSustain := 1));
    assert EAGER.spec.ExpertsBelow(1) == EAGER.spec.ExpertsBelow(0) + 0;
  }

  /** Two scored deltas; one unscored delta; none. */
  function Busy(): Input { Input(2, 0, 0, 0, "") }
  function Stale(): Input { Input(1, 1, 0, 0, "") }
  function Empty(): Input { Input(0, 0, 0, 0, "") }

  lemma {:induction false} BusyDecision(p: Params, pinned: nat, slack: nat)
    requires Patient(p)
    ensures Decide(10_000, pinned, slack, 2, 0, p.knobs) == Decision(10_000, pinned + 1, 0, true, false, true)
  {
  }

  lemma {:induction false} StaleDecision(p: Params, pinned: nat, slack: nat)
    requires Patient(p)
    ensures Decide(10_000, pinned, slack, 1, 10_000, p.knobs) == Decision(10_000, 0, 0, false, false, false)
  {
  }

  lemma {:induction false} EmptyDecision(p: Params, pinned: nat, slack: nat)
    requires Patient(p)
    ensures Decide(10_000, pinned, slack, 0, 0, p.knobs) == Decision(10_000, 0, slack + 1, false, true, false)
  {
  }

  /** One block, one window: the fold is the window's conclusion. */
  lemma {:induction false} OneWindow(p: Params, blocks: seq<Input>)
    requires Patient(p) && 0 < |blocks| < 100 && Run(p, blocks[..|blocks| - 1]).rev == 2
    requires Run(p, blocks[..|blocks| - 1]).quota == 10_000
    ensures var s, a, b := Run(p, blocks[..|blocks| - 1]), Closing(p, blocks), blocks[|blocks| - 1];
      && a == s.(winAccepted := b.nTxs, winZeroScored := b.zeroScored)
      && Run(p, blocks) == Conclude(a, p, WindowDecision(a, p), b.prevHash)
      && (b == Busy() ==> WindowDecision(a, p) == Decision(10_000, s.pinned + 1, 0, true, false, true))
      && (b == Stale() ==> WindowDecision(a, p) == Decision(10_000, 0, 0, false, false, false))
      && (b == Empty() ==> WindowDecision(a, p) == Decision(10_000, 0, s.slack + 1, false, true, false))
  {
    var s := Run(p, blocks[..|blocks| - 1]);
    AlwaysClosed(p, blocks);
    Settled(p, blocks[..|blocks| - 1]);
    BusyDecision(p, s.pinned, s.slack);
    StaleDecision(p, s.pinned, s.slack);
    EmptyDecision(p, s.pinned, s.slack);
  }

  /** The page opens, stays active, and the next one is announced. */
  lemma {:induction false} OpensAndAnnounces(p: Params, s: State, d: Decision, prev: nat)
    requires p.Valid() && |s.pages| == p.spec.GenesisPages() > 0 && d.schedule && !d.freeze
    requires |s.pending| == 1 && s.pending[0].window <= s.windowId + 1
    ensures var u := Conclude(s, p, d, prev);
      && |u.pages| == |s.pages| + 1 && u.pages[|s.pages|].active && u.windowId == s.windowId + 1 && u.rev == s.rev
      && |u.pending| == 1 && u.pending[0].window == u.windowId + p.announceLead
      && u.quota == (p.knobs.quotaMin + p.knobs.quotaMax) / 2
  {
    OpensOne(p, s);
    LastPage(s.pages + [NewPage(s.pages, s.pending[0].layer, p.spec)], |s.pages|);
  }

  /** The only grown page is frozen while the next is announced. */
  lemma {:induction false} FreezesWaiting(p: Params, s: State, d: Decision, prev: nat)
    requires p.Valid() && |s.pages| == p.spec.GenesisPages() + 1 && s.pages[|s.pages| - 1].active
    requires |s.pending| == 1 && s.pending[0].window > s.windowId + 1 && d.freeze && !d.thawOk
    ensures var u := Conclude(s, p, d, prev);
      && |u.pages| == |s.pages| && !u.pages[|s.pages| - 1].active && u.windowId == s.windowId + 1 && u.rev == s.rev
      && u.pending == s.pending && u.quota == d.quota
  {
    OpenSplits(s.pending, s.windowId + 1);
    LastPage(s.pages, p.spec.GenesisPages());
  }

  /** The announced page opens behind the frozen one. */
  lemma {:induction false} OpensBehind(p: Params, s: State, d: Decision, prev: nat)
    requires p.Valid() && |s.pages| == p.spec.GenesisPages() + 1 && !s.pages[|s.pages| - 1].active
    requires |s.pending| == 1 && s.pending[0].window <= s.windowId + 1 && !d.freeze && !d.thawOk
    ensures Broken(p, Conclude(s, p, d, prev))
  {
    OpensOne(p, s);
    FrozenBeforeActive(p, Conclude(s, p, d, prev), |s.pages| - 1);
  }

  function FiveBlocks(): seq<Input> { [Busy(), Stale(), Busy(), Empty(), Stale()] }

  lemma {:induction false} FirstOne(p: Params, blocks: seq<Input>)
    requires Patient(p) && blocks == [Busy()]
    ensures var s := Run(p, blocks);
      && |s.pages| == 1 && s.windowId == 1 && s.rev == 2 && s.quota == 10_000
      && |s.pending| == 1 && s.pending[0].window == 3
  {
    assert blocks[..0] == [];
    OneWindow(p, blocks);
    var a := Closing(p, blocks);
    SchedulingWindow(p, a, WindowDecision(a, p), 0);
  }

  lemma {:induction false} FirstTwo(p: Params, blocks: seq<Input>)
    requires Patient(p) && blocks == [Busy(), Stale()]
    ensures var s := Run(p, blocks);
      && |s.pages| == 1 && s.windowId == 2 && s.rev == 2 && s.quota == 10_000
      && |s.pending| == 1 && s.pending[0].window == 3
  {
    FirstOne(p, blocks[..1]);
    OneWindow(p, blocks);
    var a := Closing(p, blocks);
    WaitingWindow(p, a, WindowDecision(a, p), 0);
  }

  lemma {:induction false} FirstThree(p: Params, blocks: seq<Input>)
    requires Patient(p) && blocks == [Busy(), Stale(), Busy()]
    ensures var s := Run(p, blocks);
      && |s.pages| == 2 && s.pages[1].active && s.windowId == 3 && s.rev == 2 && s.quota == 10_000
      && |s.pending| == 1 && s.pending[0].window == 5
  {
    FirstTwo(p, blocks[..2]);
    OneWindow(p, blocks);
    var a := Closing(p, blocks);
    OpensAndAnnounces(p, a, WindowDecision(a, p), 0);
  }

  /**
   * With a lead of two windows and a streak of one: the first page opens in
   * window 3, an empty window freezes it, and the second opens behind it.
   */
  lemma {:induction false} LongLeadBreaksLifo(p: Params)
    requires Patient(p)
    ensures Broken(p, Run(p, FiveBlocks()))
  {
    var blocks := FiveBlocks();
    assert blocks[..4][..3] == blocks[..3] == [Busy(), Stale(), Busy()];
    FirstThree(p, blocks[..3]);
    OneWindow(p, blocks[..4]);
    var a := Closing(p, blocks[..4]);
    FreezesWaiting(p, a, WindowDecision(a, p), 0);
    OneWindow(p, blocks);
    a := Closing(p, blocks);
    OpensBehind(p, a, WindowDecision(a, p), 0);
  }
}
