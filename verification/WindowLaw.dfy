/**
 * What one window does to the page table and the controller's fields, in terms
 * of the state before and after it: which page wakes, which falls asleep, what
 * is announced.
 */
module WindowLaw {
  import opened Capacity
  import opened DecisionLaw
  import opened ModelState
  import opened PageTableLaw

  ghost predicate Wakes(s: seq<Page>, t: seq<Page>, id: nat) {
    id < |s| && id < |t| && !s[id].active && t[id].active
  }

  /** Active, or not there yet, before; frozen after. */
  ghost predicate Sleeps(s: seq<Page>, t: seq<Page>, id: nat) {
    id < |t| && !t[id].active && (id < |s| ==> s[id].active)
  }

  ghost predicate SomeWakes(s: seq<Page>, t: seq<Page>) { exists id: nat :: Wakes(s, t, id) }

  ghost predicate SomeSleeps(s: seq<Page>, t: seq<Page>) { exists id: nat :: Sleeps(s, t, id) }

  ghost predicate AnyAsleep(s: seq<Page>, base: nat) { exists id :: base <= id < |s| && !s[id].active }

  ghost predicate AnyAwake(s: seq<Page>, base: nat) { exists id :: base <= id < |s| && s[id].active }

  /** A page wakes exactly when asked and one sleeps: the lowest. */
  ghost predicate ThawsLowest(s: seq<Page>, t: seq<Page>, base: nat, thaws: bool) {
    && (thaws <==> SomeWakes(s, t))
    && forall id: nat :: Wakes(s, t, id) ==> base <= id && forall j :: base <= j < id ==> s[j].active
  }

  /** A page falls asleep exactly when asked and one is awake: the newest. */
  ghost predicate FreezesNewest(s: seq<Page>, t: seq<Page>, base: nat, freezes: bool) {
    && (freezes <==> SomeSleeps(s, t))
    && forall id: nat :: Sleeps(s, t, id) ==> base <= id && forall j :: id < j < |t| ==> j < |s| && !s[j].active
  }

  /** The announced event, if any, is due when the next window opens. */
  ghost predicate Ripe(s: State) { s.pending != [] && s.pending[0].window <= s.windowId + 1 }

  /**
   * One window: s before, t after, with that many accepted deltas, the gate open
   * or shut, the quota stepped to next, and the closing block on top of prevHash.
   */
  ghost predicate Turns(
    p: Params, base: nat, s: State, accepted: nat, open: bool, next: nat, prevHash: nat, t: State)
    requires p.spec.nLayers > 0
  {
    var k := p.knobs;
    var surplus, deficit := Surplus(k, next, accepted, open), Deficit(k, next, accepted);
    var pinned, slack := if surplus then s.pinned + 1 else 0, if deficit then s.slack + 1 else 0;
    var thaws := surplus && AnyAsleep(s.pages, base);
    var grows := !thaws && pinned >= k.kSustain && (s.pending == [] || Ripe(s));
    var freezes := slack >= k.kSustain && (AnyAwake(s.pages, base) || Ripe(s));
    && t.windowId == s.windowId + 1 && |t.pages| == |s.pages| + (if Ripe(s) then 1 else 0)
    && ThawsLowest(s.pages, t.pages, base, thaws) && FreezesNewest(s.pages, t.pages, base, freezes)
    && t.pending == (if grows
         then [Growth(s.windowId + 1 + p.announceLead, s.eventsTotal % p.spec.nLayers, prevHash)]
         else if Ripe(s) then [] else s.pending)
    && t.eventsTotal == s.eventsTotal + (if grows then 1 else 0)
    && (if grows then 2 * t.quota <= k.quotaMin + k.quotaMax < 2 * t.quota + 2 else t.quota == next)
    && t.pinned == (if thaws || grows then 0 else pinned) && t.slack == (if freezes then 0 else slack)
    && t.winAccepted == 0 && t.winZeroScored == 0 && t.winScoreSum == 0 && t.winScorers == []
  }

  /** The pages ActOn leaves. */
  function Acted(o: seq<Page>, base: nat, thawOk: bool, freezeOk: bool): (v: seq<Page>)
    requires base <= |o|
    ensures |v| == |o|
  {
    var frozen, active := FirstFrozen(o, base), LastActive(o, base, |o|);
    var thawed := if thawOk && frozen < |o| then SetActive(o, frozen, true) else o;
    if freezeOk && active > base then SetActive(thawed, active - 1, false) else thawed
  }

  lemma {:induction false} Ends(o: seq<Page>, base: nat)
    requires base <= |o|
    ensures FirstFrozen(o, base) < |o| <==> AnyAsleep(o, base)
    ensures forall j :: base <= j < FirstFrozen(o, base) ==> o[j].active
    ensures LastActive(o, base, |o|) > base <==> AnyAwake(o, base)
    ensures forall j :: LastActive(o, base, |o|) <= j < |o| ==> !o[j].active
  {
    var frozen, active := FirstFrozen(o, base), LastActive(o, base, |o|);
    forall j | base <= j < frozen ensures o[j].active { FirstFrozenLeast(o, base, j); }
    forall j | active <= j < |o| ensures !o[j].active { LastActiveGreatest(o, base, |o|, j); }
    if frozen < |o| { assert !o[frozen].active; }
    if active > base { assert o[active - 1].active; }
  }

  lemma {:induction false} ActedThaws(o: seq<Page>, base: nat, thawOk: bool, freezeOk: bool)
    requires base <= |o|
    ensures ThawsLowest(o, Acted(o, base, thawOk, freezeOk), base, thawOk && AnyAsleep(o, base))
  {
    Ends(o, base);
    var v, frozen := Acted(o, base, thawOk, freezeOk), FirstFrozen(o, base);
    if thawOk && frozen < |o| { assert Wakes(o, v, frozen); }
  }

  lemma {:induction false} ActedFreezes(o: seq<Page>, base: nat, thawOk: bool, freezeOk: bool)
    requires base <= |o|
    ensures FreezesNewest(o, Acted(o, base, thawOk, freezeOk), base, freezeOk && AnyAwake(o, base))
  {
    Ends(o, base);
    var v, active := Acted(o, base, thawOk, freezeOk), LastActive(o, base, |o|);
    if freezeOk && active > base { assert Sleeps(o, v, active - 1); }
  }

  /** Seen from before the window opened: the page it brings is awake. */
  lemma {:induction false} FromBefore(
    s: seq<Page>, o: seq<Page>, v: seq<Page>, base: nat, due: bool, thawOk: bool, freezeOk: bool)
    requires base <= |s| && |v| == |o| == |s| + (if due then 1 else 0) && o[..|s|] == s && (due ==> o[|s|].active)
    requires ThawsLowest(o, v, base, thawOk && AnyAsleep(o, base))
    requires FreezesNewest(o, v, base, freezeOk && AnyAwake(o, base))
    ensures ThawsLowest(s, v, base, thawOk && AnyAsleep(s, base))
    ensures FreezesNewest(s, v, base, freezeOk && (AnyAwake(s, base) || due))
  {
    assert forall id :: 0 <= id < |s| ==> o[id] == s[id];
    assert forall id: nat :: Wakes(s, v, id) <==> Wakes(o, v, id);
    assert forall id: nat :: Sleeps(s, v, id) <==> Sleeps(o, v, id);
    assert AnyAsleep(s, base) <==> AnyAsleep(o, base) by {
      if id :| base <= id < |o| && !o[id].active { assert !s[id].active; }
      if id :| base <= id < |s| && !s[id].active { assert !o[id].active; }
    }
    assert AnyAwake(o, base) <==> AnyAwake(s, base) || due by {
      if id :| base <= id < |o| && o[id].active { if id < |s| { assert s[id].active; } }
      if id :| base <= id < |s| && s[id].active { assert o[id].active; }
      if due { assert o[|s|].active; }
    }
  }

  /** The table a boundary opens. */
  lemma {:induction false} Opened(p: Params, s: State) returns (o: State)
    requires p.Valid() && Law(p, s)
    ensures o == OpenWindow(s, p) && |o.pages| == |s.pages| + (if Ripe(s) then 1 else 0)
    ensures o.pages[..|s.pages|] == s.pages
    ensures Ripe(s) ==> o.pages[|s.pages|].active
    ensures o.pending == if Ripe(s) then [] else s.pending
    ensures o.windowId == s.windowId + 1
  {
    o := OpenWindow(s, p);
    OpenSplits(s.pending, s.windowId + 1);
    OpenKeepsLaw(p, s);
  }

  /** A boundary turns the window, from any state that keeps the table's law. */
  lemma {:induction false} BoundaryTurns(p: Params, s: State, prevHash: nat, base: nat, next: nat)
    requires p.Valid() && Law(p, s) && base == p.spec.GenesisPages()
    requires Steps(p.knobs, 4, s.quota, s.winAccepted, next)
    ensures Turns(p, base, s, s.winAccepted, Staleness(s, p) <= p.knobs.staleCeiling, next, prevHash,
      Boundary(s, p, prevHash))
  {
    var d := WindowDecision(s, p);
    DecisionIs(p.knobs, s.quota, s.pinned, s.slack, s.winAccepted, Staleness(s, p), d);
    QuotaIsTheStep(p.knobs, s.quota, s.winAccepted, next);
    var o := Opened(p, s);
    CycleIsMod(s.eventsTotal, p.spec.nLayers);
    ActedThaws(o.pages, base, d.thawOk, d.freeze);
    ActedFreezes(o.pages, base, d.thawOk, d.freeze);
    FromBefore(s.pages, o.pages, Acted(o.pages, base, d.thawOk, d.freeze), base, Ripe(s), d.thawOk, d.freeze);
    ActTurns(p, s, o, d, Staleness(s, p) <= p.knobs.staleCeiling, prevHash, base);
  }

  lemma {:induction false} ActTurns(
    p: Params, s: State, o: State, d: Decision, open: bool, prevHash: nat, base: nat)
    requires p.Valid() && base == p.spec.GenesisPages() <= |s.pages| <= |o.pages|
    requires o == s.(windowId := s.windowId + 1, pages := o.pages, pending := if Ripe(s) then [] else s.pending)
    requires Cycle(s.eventsTotal, p.spec.nLayers) == s.eventsTotal % p.spec.nLayers
    requires |o.pages| == |s.pages| + (if Ripe(s) then 1 else 0) && o.pages[..|s.pages|] == s.pages
    requires Ripe(s) ==> o.pages[|s.pages|].active
    requires d.thawOk <==> Surplus(p.knobs, d.quota, s.winAccepted, open)
    requires d.pinned == (if Surplus(p.knobs, d.quota, s.winAccepted, open) then s.pinned + 1 else 0)
    requires d.slack == (if Deficit(p.knobs, d.quota, s.winAccepted) then s.slack + 1 else 0)
    requires (d.schedule <==> d.pinned >= p.knobs.kSustain) && (d.freeze <==> d.slack >= p.knobs.kSustain)
    requires var v := Acted(o.pages, base, d.thawOk, d.freeze);
      && ThawsLowest(s.pages, v, base, d.thawOk && AnyAsleep(s.pages, base))
      && FreezesNewest(s.pages, v, base, d.freeze && (AnyAwake(s.pages, base) || Ripe(s)))
    ensures Turns(p, base, s, s.winAccepted, open, d.quota, prevHash, ResetWindow(ActOn(o, p, d, prevHash)))
  {
    var v := Acted(o.pages, base, d.thawOk, d.freeze);
    Ends(o.pages, base);
    assert AnyAsleep(s.pages, base) <==> AnyAsleep(o.pages, base) by {
      if id :| base <= id < |o.pages| && !o.pages[id].active { assert !s.pages[id].active; }
      if id :| base <= id < |s.pages| && !s.pages[id].active { assert !o.pages[id].active; }
    }
    assert AnyAwake(o.pages, base) <==> AnyAwake(s.pages, base) || Ripe(s) by {
      if id :| base <= id < |o.pages| && o.pages[id].active { if id < |s.pages| { assert s.pages[id].active; } }
      if id :| base <= id < |s.pages| && s.pages[id].active { assert o.pages[id].active; }
    }
    assert ActOn(o, p, d, prevHash).pages == v;
  }

  /** A boundary reports the page it opens: its number, layer and expert, and the trigger its announcement recorded. */
  lemma {:induction false} ReportsOpened(p: Params, s: State, height: nat, b: Input)
    requires p.Valid() && Law(p, s) && AtBoundary(p, height)
    ensures var g := |s.pages| - p.spec.GenesisPages();
      FoldActivations(s, p, height, b) ==
        if Ripe(s)
        then [Activation(
          |s.pages|, g % p.spec.nLayers, p.spec.nExpertsInitial + g / p.spec.nLayers, s.pending[0].trigger)]
        else []
  {
    OpenSplits(s.pending, s.windowId + 1);
    if Ripe(s) {
      var g := |s.pages| - p.spec.GenesisPages();
      AppendOne(s.pages, s.pending, p.spec);
      assert s.pending[1..] == [];
      NextGrownKind(p, s.pages, g);
      AppendedPage(p, s.pages, s.pending[0].layer);
      GrownKindClosed(p.spec, g);
      CycleIsMod(g, p.spec.nLayers);
    }
  }
}
