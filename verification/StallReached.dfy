/**
 * With a streak length of zero, growth can be stopped for good whatever the
 * lead and the band: idle windows open pages and freeze them at once, and a
 * surge in the right window stalls the fold.
 */
module StallReached {
  import opened Capacity
  import opened ModelState
  import opened PageTableLaw
  import opened CapacityLaw
  import opened WindowSteps
  import opened NoSustain

  function Idle(n: nat): seq<Input> { seq(n, _ => Input(0, 0, 0, 0, "")) }

  function SurgeBlock(p: Params): Input { Input(Surge(p.knobs), 0, 0, 1, "x") }

  /** Every block closes a window, and one scoring proposer is a quorum. */
  ghost predicate OneBlock(p: Params) { Streakless(p) && p.window == 1 && p.growthQuorum <= 1 }

  /** Between windows, with every grown page frozen. */
  ghost predicate Dormant(p: Params, s: State)
    requires p.Valid()
  {
    && |s.pages| >= p.spec.GenesisPages() && |s.pending| <= 1
    && LastActive(s.pages, p.spec.GenesisPages(), |s.pages|) == p.spec.GenesisPages()
    && s.winAccepted == 0 && s.winZeroScored == 0 && s.winScorers == []
  }

  lemma {:induction false} DormantFrozen(p: Params, s: State)
    requires p.Valid() && Dormant(p, s) && |s.pages| > p.spec.GenesisPages()
    ensures FirstFrozen(s.pages, p.spec.GenesisPages()) < |s.pages|
  {
    var base := p.spec.GenesisPages();
    LastActiveGreatest(s.pages, base, |s.pages|, base);
    SomeFrozen(s.pages, base, base);
  }

  lemma {:induction false} FreezeNew(pages: seq<Page>, page: Page, base: nat)
    requires base <= |pages| && LastActive(pages, base, |pages|) == base
    ensures LastActive(pages + [page.(active := false)], base, |pages| + 1) == base
  {
    LastActivePrefix(pages, page.(active := false), base, |pages|);
  }

  lemma {:induction false} LastActivePrefix(pages: seq<Page>, page: Page, base: nat, end: nat)
    requires base <= end <= |pages|
    ensures LastActive(pages + [page], base, end) == LastActive(pages, base, end)
    decreases end
  {
    if end > base && !pages[end - 1].active { LastActivePrefix(pages, page, base, end - 1); }
  }

  /** What an idle window does to a dormant table: announce, wait, or open a page and freeze it at once. */
  ghost predicate Idles(p: Params, s: State, u: State)
    requires p.Valid()
  {
    && Dormant(p, u) && u.windowId == s.windowId + 1 && |u.pending| == 1
    && (if s.pending == [] then u.pages == s.pages && u.pending[0].window == u.windowId + p.announceLead
        else if s.pending[0].window > u.windowId then u.pages == s.pages && u.pending == s.pending
        else |u.pages| == |s.pages| + 1 && u.pending[0].window == u.windowId + p.announceLead)
  }

  lemma {:induction false} AnnouncesOrWaits(p: Params, s: State, d: Decision, prev: nat)
    requires p.Valid() && Dormant(p, s) && !d.thawOk && d.schedule && d.freeze
    requires s.pending == [] || s.pending[0].window > s.windowId + 1
    ensures Idles(p, s, Conclude(s, p, d, prev))
  {
    OpenSplits(s.pending, s.windowId + 1);
  }

  lemma {:induction false} OpensAndFreezes(p: Params, s: State, d: Decision, prev: nat)
    requires p.Valid() && Dormant(p, s) && !d.thawOk && d.schedule && d.freeze
    requires |s.pending| == 1 && s.pending[0].window <= s.windowId + 1
    ensures Idles(p, s, Conclude(s, p, d, prev))
  {
    var base, n, page := p.spec.GenesisPages(), |s.pages|, NewPage(s.pages, s.pending[0].layer, p.spec);
    OpensOne(p, s);
    assert LastActive(s.pages + [page], base, n + 1) == n + 1;
    ReplacedLast(s.pages, page);
    FreezeNew(s.pages, page, base);
  }

  lemma {:induction false} IdleDecision(quota: nat, pinned: nat, slack: nat, staleness: nat, k: Knobs)
    requires k.Valid() && k.kSustain == 0
    ensures var d := Decide(quota, pinned, slack, 0, staleness, k); !d.thawOk && d.schedule && d.freeze
  {
  }

  lemma {:induction false} IdleNext(p: Params, n: nat)
    requires OneBlock(p) && Dormant(p, Run(p, Idle(n)))
    ensures Idles(p, Run(p, Idle(n)), Run(p, Idle(n + 1)))
  {
    var blocks := Idle(n + 1);
    var s, a := Run(p, Idle(n)), Closing(p, blocks);
    assert blocks[..n] == Idle(n);
    CycleIsMod(n + 1, 1);
    IdleDecision(a.quota, a.pinned, a.slack, Staleness(a, p), p.knobs);
    if s.pending == [] || s.pending[0].window > s.windowId + 1 {
      AnnouncesOrWaits(p, a, WindowDecision(a, p), 0);
    } else {
      OpensAndFreezes(p, a, WindowDecision(a, p), 0);
    }
  }

  lemma {:induction false} IdleRun(p: Params, n: nat)
    requires OneBlock(p)
    ensures Dormant(p, Run(p, Idle(n))) && Run(p, Idle(n)).windowId == n
    ensures n > 0 ==> |Run(p, Idle(n)).pending| == 1
  {
    if n > 0 {
      IdleRun(p, n - 1);
      IdleNext(p, n - 1);
    }
  }

  /** Waiting until the announced page is due. */
  lemma {:induction false} Wait(p: Params, n: nat, k: nat) returns (m: nat)
    requires OneBlock(p) && n > 0
    requires |Run(p, Idle(n)).pending| == 1 && Run(p, Idle(n)).pending[0].window <= n + 1 + k
    ensures m > 0 && Run(p, Idle(m)).pages == Run(p, Idle(n)).pages
    ensures |Run(p, Idle(m)).pending| == 1 && Run(p, Idle(m)).pending[0].window <= m + 1
    decreases k
  {
    IdleRun(p, n);
    if Run(p, Idle(n)).pending[0].window <= n + 1 {
      m := n;
    } else {
      IdleNext(p, n);
      m := Wait(p, n + 1, k - 1);
    }
  }

  /** After some idle windows a page is due while another is frozen. */
  lemma {:induction false} Due(p: Params) returns (n: nat)
    requires OneBlock(p)
    ensures OpensBehindFrozen(p, Run(p, Idle(n)))
  {
    IdleRun(p, 0);
    assert Run(p, Idle(0)) == Genesis(p.spec);
    IdleNext(p, 0);
    var m := Wait(p, 1, p.announceLead);
    IdleRun(p, m);
    IdleNext(p, m);
    IdleRun(p, m + 1);
    n := Wait(p, m + 1, p.announceLead);
    IdleRun(p, n);
    DormantFrozen(p, Run(p, Idle(n)));
  }

  lemma {:induction false} SurgeIsDemand(p: Params, s: State, a: State, height: nat)
    requires OneBlock(p) && Dormant(p, s) && a == Accumulate(s, p, height, SurgeBlock(p))
    ensures a.winAccepted == Surge(p.knobs) && Staleness(a, p) == 0
  {
  }

  /** For every lead and every band there is a run after which no demand grows the model (GrowthStalls). */
  lemma {:induction false} StallReachable(p: Params) returns (blocks: seq<Input>)
    requires OneBlock(p)
    ensures Stalled(p, Run(p, blocks))
  {
    var n := Due(p);
    IdleRun(p, n);
    blocks := Idle(n) + [SurgeBlock(p)];
    assert blocks[..n] == Idle(n);
    CycleIsMod(n + 1, 1);
    SurgeIsDemand(p, Run(p, Idle(n)), Closing(p, blocks), n + 1);
    RunLaw(p, Idle(n));
    SurgeLifts(Run(p, Idle(n)).quota, Surge(p.knobs), p.knobs);
    SurgeStalls(p, blocks);
  }
}
