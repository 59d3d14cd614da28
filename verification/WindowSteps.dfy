/** Single windows of the fold on small tables, for examples. */
module WindowSteps {
  import opened Capacity
  import opened ModelState

  lemma {:induction false} NothingDue(window: nat)
    ensures DueGrowth([], window) == [] && LaterGrowth([], window) == []
  {
  }

  /** A window that neither opens nor schedules a page. */
  lemma {:induction false} UneventfulWindow(p: Params, s: State, d: Decision, prev: nat)
    requires p.Valid() && |s.pages| == p.spec.GenesisPages() > 0 && s.pending == [] && !d.schedule
    ensures Conclude(s, p, d, prev)
      == ResetWindow(s.(windowId := s.windowId + 1, quota := d.quota, pinned := d.pinned, slack := d.slack))
  {
    NothingDue(s.windowId + 1);
  }

  /** A window that schedules a page. */
  lemma {:induction false} SchedulingWindow(p: Params, s: State, d: Decision, prev: nat)
    requires p.Valid() && |s.pages| == p.spec.GenesisPages() > 0 && s.pending == [] && d.schedule
    ensures Conclude(s, p, d, prev)
      == ResetWindow(s.(
           windowId := s.windowId + 1, quota := (p.knobs.quotaMin + p.knobs.quotaMax) / 2,
           pinned := 0, slack := d.slack,
           pending := [Growth(s.windowId + 1 + p.announceLead, Cycle(s.eventsTotal, p.spec.nLayers), prev)],
           eventsTotal := s.eventsTotal + 1))
  {
    NothingDue(s.windowId + 1);
  }

  lemma {:induction false} OneAppended(pages: seq<Page>, e: Growth, spec: Spec)
    requires pages != []
    ensures Append(pages, [e], spec) == pages + [NewPage(pages, e.layer, spec)]
    ensures Activations(pages, [e], spec)
      == [Activation(|pages|, e.layer, NewPage(pages, e.layer, spec).kind.index, e.trigger)]
  {
    assert [e][1..] == [];
    var page := NewPage(pages, e.layer, spec);
    assert Append(pages + [page], [], spec) == pages + [page] && Activations(pages + [page], [], spec) == [];
  }

  /** The only grown page is the last. */
  lemma {:induction false} LastPage(pages: seq<Page>, base: nat)
    requires |pages| == base + 1 && pages[base].active
    ensures FirstFrozen(pages, base) == base + 1 && LastActive(pages, base, base + 1) == base + 1
  {
    assert FirstFrozen(pages, base + 1) == base + 1;
  }

  /** A due event opens one page. */
  lemma {:induction false} OpensOne(p: Params, s: State)
    requires s.pages != [] && |s.pending| == 1 && s.pending[0].window <= s.windowId + 1
    ensures OpenWindow(s, p) == s.(
      windowId := s.windowId + 1, pages := s.pages + [NewPage(s.pages, s.pending[0].layer, p.spec)], pending := [])
  {
    assert s.pending == [s.pending[0]];
    OneEvent(s.pending[0], s.windowId + 1);
    OneAppended(s.pages, s.pending[0], p.spec);
  }

  /** The only grown page is frozen; a page is scheduled or not. */
  lemma {:induction false} FreezesLast(p: Params, u: State, d: Decision, prev: nat)
    requires p.Valid() && |u.pages| == p.spec.GenesisPages() + 1 && u.pages[|u.pages| - 1].active && u.pending == []
    requires d.freeze
    ensures var frozen := u.pages[|u.pages| - 1 := u.pages[|u.pages| - 1].(active := false)];
      ActOn(u, p, d, prev) ==
      if d.schedule
      then u.(pages := frozen, quota := (p.knobs.quotaMin + p.knobs.quotaMax) / 2, pinned := 0, slack := 0,
              pending := [Growth(u.windowId + p.announceLead, Cycle(u.eventsTotal, p.spec.nLayers), prev)],
              eventsTotal := u.eventsTotal + 1)
      else u.(pages := frozen, quota := d.quota, pinned := d.pinned, slack := 0)
  {
    LastPage(u.pages, p.spec.GenesisPages());
  }

  /** An idle window that opens the announced page and freezes it at once. */
  lemma {:induction false} OpeningWindow(p: Params, s: State, d: Decision, prev: nat)
    requires p.Valid() && |s.pages| == p.spec.GenesisPages() > 0
    requires |s.pending| == 1 && s.pending[0].window <= s.windowId + 1 && d.freeze && !d.schedule && !d.thawOk
    ensures var page := NewPage(s.pages, s.pending[0].layer, p.spec);
      Conclude(s, p, d, prev)
      == ResetWindow(s.(
           windowId := s.windowId + 1, quota := d.quota, pinned := d.pinned, slack := 0,
           pages := s.pages + [page.(active := false)], pending := []))
  {
    OpensOne(p, s);
    FreezesLast(p, OpenWindow(s, p), d, prev);
    ReplacedLast(s.pages, NewPage(s.pages, s.pending[0].layer, p.spec));
  }

  lemma {:induction false} ReplacedLast(pages: seq<Page>, page: Page)
    ensures (pages + [page])[|pages| := page.(active := false)] == pages + [page.(active := false)]
  {
  }

  /** A window before the announced page is due, with no grown page yet. */
  lemma {:induction false} WaitingWindow(p: Params, s: State, d: Decision, prev: nat)
    requires p.Valid() && |s.pages| == p.spec.GenesisPages() > 0
    requires |s.pending| == 1 && s.pending[0].window > s.windowId + 1
    ensures Conclude(s, p, d, prev)
      == ResetWindow(s.(windowId := s.windowId + 1, quota := d.quota, pinned := d.pinned, slack := d.slack))
  {
    assert s.pending == [s.pending[0]];
    OneEvent(s.pending[0], s.windowId + 1);
  }

  /** A window that opens the first grown page, schedules the next and freezes the one it opened. */
  lemma {:induction false} ChurningWindow(p: Params, s: State, d: Decision, prev: nat)
    requires p.Valid() && |s.pages| == p.spec.GenesisPages() > 0
    requires |s.pending| == 1 && s.pending[0].window <= s.windowId + 1 && d.freeze && d.schedule
    ensures var page := NewPage(s.pages, s.pending[0].layer, p.spec);
      Conclude(s, p, d, prev)
      == ResetWindow(s.(
           windowId := s.windowId + 1, quota := (p.knobs.quotaMin + p.knobs.quotaMax) / 2, pinned := 0, slack := 0,
           pages := s.pages + [page.(active := false)],
           pending := [Growth(s.windowId + 1 + p.announceLead, Cycle(s.eventsTotal, p.spec.nLayers), prev)],
           eventsTotal := s.eventsTotal + 1))
  {
    OpensOne(p, s);
    FreezesLast(p, OpenWindow(s, p), d, prev);
    ReplacedLast(s.pages, NewPage(s.pages, s.pending[0].layer, p.spec));
  }
}
