/**
 * What one window of the capacity controller decides, stated without division:
 * the step of the quota, the two streaks, and what the counters then do.
 */
module DecisionLaw {
  import opened Capacity

  /** The full correction: what would have met the target, rounded down; the floor when nothing was accepted. */
  ghost predicate Corrects(k: Knobs, quota: int, accepted: int, raw: int) {
    if accepted == 0 then raw == k.quotaMin
    else raw * k.target <= quota * accepted < raw * k.target + k.target
  }

  /** A step of one div-th, rounded down, from quota toward raw. */
  ghost predicate Damps(div: int, quota: int, raw: int, damped: int) {
    div * (damped - quota) <= raw - quota < div * (damped - quota) + div
  }

  /** next is damped, moved to the nearer end of the band when it lies outside. */
  ghost predicate Clamps(k: Knobs, damped: int, next: int) {
    && k.quotaMin <= next <= k.quotaMax
    && (damped < next ==> next == k.quotaMin) && (next < damped ==> next == k.quotaMax)
  }

  ghost predicate StepsVia(k: Knobs, div: int, quota: int, accepted: int, raw: int, damped: int, next: int) {
    Corrects(k, quota, accepted, raw) && Damps(div, quota, raw, damped) && Clamps(k, damped, next)
  }

  /** One window's step of the fast knob. */
  ghost predicate Steps(k: Knobs, div: int, quota: int, accepted: int, next: int) {
    exists raw, damped :: StepsVia(k, div, quota, accepted, raw, damped, next)
  }

  lemma {:induction false} Quotient(x: int, n: int)
    requires n > 0
    ensures x / n * n <= x < x / n * n + n
  {
    assert x == n * (x / n) + x % n;
  }

  lemma {:induction false} Farther(y: int, z: int, n: int)
    requires y > z && n > 0
    ensures y * n >= z * n + n
  {
    var m := y - z - 1;
    assert m * n >= 0;
    assert y * n == z * n + n + m * n;
  }

  /** A quotient is the only number between its two bounds. */
  lemma {:induction false} OneQuotient(x: int, n: int, y: int, z: int)
    requires n > 0 && y * n <= x < y * n + n && z * n <= x < z * n + n
    ensures y == z
  {
    if y < z { Farther(z, y, n); }
    if z < y { Farther(y, z, n); }
  }

  /** The next quota is such a step. */
  lemma {:induction false} QuotaSteps(k: Knobs, quota: nat, accepted: nat)
    requires k.Valid()
    ensures Steps(k, k.dampDiv, quota, accepted, NextQuota(quota, accepted, k))
  {
    var raw := Raw(quota, accepted, k);
    var damped := quota + (raw - quota) / k.dampDiv;
    Quotient(quota * accepted, k.target);
    Quotient(raw - quota, k.dampDiv);
    assert (raw - quota) / k.dampDiv * k.dampDiv == k.dampDiv * (damped - quota);
    assert StepsVia(k, k.dampDiv, quota, accepted, raw, damped, NextQuota(quota, accepted, k));
  }

  /** And the only one. */
  lemma {:induction false} QuotaIsTheStep(k: Knobs, quota: nat, accepted: nat, next: int)
    requires k.Valid()
    ensures Steps(k, k.dampDiv, quota, accepted, next) <==> next == NextQuota(quota, accepted, k)
  {
    QuotaSteps(k, quota, accepted);
    if Steps(k, k.dampDiv, quota, accepted, next) {
      OneStep(k, k.dampDiv, quota, accepted, next, NextQuota(quota, accepted, k));
    }
  }

  lemma {:induction false} OneDamped(div: int, quota: int, raw: int, x: int, y: int)
    requires div > 0 && Damps(div, quota, raw, x) && Damps(div, quota, raw, y)
    ensures x == y
  {
    var m, n := x - quota, y - quota;
    assert div * m == m * div && div * n == n * div;
    OneQuotient(raw - quota, div, m, n);
  }

  lemma {:induction false} OneRaw(k: Knobs, quota: int, accepted: int, x: int, y: int)
    requires k.target > 0 && Corrects(k, quota, accepted, x) && Corrects(k, quota, accepted, y)
    ensures x == y
  {
    if accepted != 0 { OneQuotient(quota * accepted, k.target, x, y); }
  }

  lemma {:induction false} OneStep(k: Knobs, div: int, quota: int, accepted: int, x: int, y: int)
    requires k.target > 0 && div > 0
    requires Steps(k, div, quota, accepted, x) && Steps(k, div, quota, accepted, y)
    ensures x == y
  {
    var raw, damped :| StepsVia(k, div, quota, accepted, raw, damped, x);
    var row, dumped :| StepsVia(k, div, quota, accepted, row, dumped, y);
    OneRaw(k, quota, accepted, raw, row);
    OneDamped(div, quota, raw, damped, dumped);
  }

  lemma {:induction false} Shortfall(quota: int, accepted: int, target: int, raw: int)
    requires quota > 0 && 0 <= accepted < target && raw * target <= quota * accepted
    ensures raw < quota
  {
    Farther(target, accepted, quota);
    assert accepted * quota == quota * accepted && target * quota == quota * target;
    NoMore(raw, quota, target);
  }

  lemma {:induction false} NoMore(raw: int, quota: int, target: int)
    requires target > 0 && raw * target < quota * target
    ensures raw < quota
  {
    if raw > quota { Farther(raw, quota, target); }
  }

  lemma {:induction false} DampsDown(div: int, quota: int, raw: int, damped: int)
    requires div > 0 && Damps(div, quota, raw, damped)
    ensures raw < quota ==> damped < quota
    ensures raw <= quota ==> damped <= quota
  {
    var m := damped - quota;
    assert div * m == m * div;
    if m > 0 { Farther(m, 0, div); }
  }

  /** With fewer deltas than the target the quota falls strictly, until it is at the floor. */
  lemma {:induction false} QuotaFalls(k: Knobs, quota: nat, accepted: nat)
    requires k.Valid() && k.quotaMin <= quota <= k.quotaMax && accepted < k.target
    ensures var next := NextQuota(quota, accepted, k); next < quota || next == quota == k.quotaMin
  {
    QuotaSteps(k, quota, accepted);
    FallsVia(k, quota, accepted, NextQuota(quota, accepted, k));
  }

  lemma {:induction false} FallsVia(k: Knobs, quota: int, accepted: int, next: int)
    requires k.Valid() && k.quotaMin <= quota <= k.quotaMax && 0 <= accepted < k.target
    requires Steps(k, k.dampDiv, quota, accepted, next)
    ensures next < quota || next == quota == k.quotaMin
  {
    var raw, damped :| StepsVia(k, k.dampDiv, quota, accepted, raw, damped, next);
    CorrectsDown(k, quota, accepted, raw);
    DampsDown(k.dampDiv, quota, raw, damped);
  }

  lemma {:induction false} CorrectsDown(k: Knobs, quota: int, accepted: int, raw: int)
    requires k.target > 0 && k.quotaMin <= quota && 0 <= accepted < k.target && Corrects(k, quota, accepted, raw)
    ensures raw < quota || raw == quota == k.quotaMin || (quota == 0 && raw <= 0)
  {
    if accepted != 0 && quota > 0 { Shortfall(quota, accepted, k.target, raw); }
    if accepted != 0 && quota == 0 && raw > 0 { Farther(raw, 0, k.target); }
  }

  // ---- the two signals ----

  /** Enough deltas, the gate open, and the stepped quota within five percent of the ceiling. */
  ghost predicate Surplus(k: Knobs, next: int, accepted: int, open: bool) {
    accepted >= k.target && open && 100 * next + 100 > 95 * k.quotaMax
  }

  /** Too few deltas, and the stepped quota within five percent of the floor. */
  ghost predicate Deficit(k: Knobs, next: int, accepted: int) {
    accepted < k.target && 100 * next <= 105 * k.quotaMin
  }

  /** A decision is exactly: the stepped quota, the streaks the two signals extend or break, and their thresholds. */
  lemma {:induction false} DecisionIs(
    k: Knobs, quota: nat, pinned: nat, slack: nat, accepted: nat, staleness: nat, d: Decision)
    requires k.Valid()
    ensures d == Decide(quota, pinned, slack, accepted, staleness, k) <==>
      && Steps(k, k.dampDiv, quota, accepted, d.quota)
      && (d.thawOk <==> Surplus(k, d.quota, accepted, staleness <= k.staleCeiling))
      && d.pinned == (if Surplus(k, d.quota, accepted, staleness <= k.staleCeiling) then pinned + 1 else 0)
      && d.slack == (if Deficit(k, d.quota, accepted) then slack + 1 else 0)
      && (d.schedule <==> d.pinned >= k.kSustain) && (d.freeze <==> d.slack >= k.kSustain)
  {
    QuotaIsTheStep(k, quota, accepted, d.quota);
  }

  // ---- the counter controller ----

  /** How many announced windows are at or before the given one. */
  ghost function Matured(pending: seq<nat>, window: nat): nat {
    if pending == [] then 0
    else Matured(pending[..|pending| - 1], window) + (if pending[|pending| - 1] <= window then 1 else 0)
  }

  lemma {:induction false} DueSnoc(pending: seq<nat>, x: nat, window: nat)
    ensures Due(pending + [x], window) == Due(pending, window) + (if x <= window then [x] else [])
    ensures NotDue(pending + [x], window) == NotDue(pending, window) + (if x <= window then [] else [x])
  {
    var longer := pending + [x];
    if pending == [] {
      assert longer[1..] == [];
    } else {
      assert longer[1..] == pending[1..] + [x];
      DueSnoc(pending[1..], x, window);
    }
  }

  lemma {:induction false} DueCount(pending: seq<nat>, window: nat)
    ensures |Due(pending, window)| == Matured(pending, window)
  {
    if pending != [] {
      var init, x := pending[..|pending| - 1], pending[|pending| - 1];
      assert pending == init + [x];
      DueSnoc(init, x, window);
      DueCount(init, window);
    }
  }

  /** What stays announced is what lies after the window, in the order announced. */
  lemma {:induction false} NotDueKeeps(pending: seq<nat>, window: nat, x: nat)
    ensures multiset(NotDue(pending, window))[x] == if x > window then multiset(pending)[x] else 0
    decreases |pending|
  {
    if pending != [] {
      var rest := pending[1..];
      assert pending == [pending[0]] + rest;
      NotDueKeeps(rest, window, x);
    }
  }

  /** One window of the counters: c before, u after, next the stepped quota. */
  ghost predicate CountersTurn(c: Counters, s: Setup, accepted: nat, open: bool, next: nat, u: Counters) {
    var k := s.knobs;
    var grown := Matured(c.pending, c.windowId + 1) * s.growthBound;
    var surplus, deficit := Surplus(k, next, accepted, open), Deficit(k, next, accepted);
    var pinned, slack := if surplus then c.pinned + 1 else 0, if deficit then c.slack + 1 else 0;
    var later := NotDue(c.pending, c.windowId + 1);
    var thaws := surplus && c.active < c.total;
    var grows := !thaws && pinned >= k.kSustain && later == [];
    var awake := c.active + grown + (if thaws then 1 else 0);
    var freezes := slack >= k.kSustain && awake > s.minActive;
    && u.windowId == c.windowId + 1 && u.total == c.total + grown
    && u.active == awake - (if freezes then 1 else 0)
    && u.pending == later + (if grows then [c.windowId + 1 + s.announceLead] else [])
    && (if grows then 2 * u.quota <= k.quotaMin + k.quotaMax < 2 * u.quota + 2 else u.quota == next)
    && u.pinned == (if thaws || grows then 0 else pinned) && u.slack == (if freezes then 0 else slack)
  }

  /** observe_window does this, from any counters, and nothing else. */
  lemma {:induction false} ObserveIs(c: Counters, s: Setup, accepted: nat, staleness: nat, next: nat, u: Counters)
    requires s.knobs.Valid() && Steps(s.knobs, s.knobs.dampDiv, c.quota, accepted, next)
    ensures u == Observe(c, s, accepted, staleness)
      <==> CountersTurn(c, s, accepted, staleness <= s.knobs.staleCeiling, next, u)
  {
    var d := Decide(c.quota, c.pinned, c.slack, accepted, staleness, s.knobs);
    DecisionIs(s.knobs, c.quota, c.pinned, c.slack, accepted, staleness, d);
    QuotaIsTheStep(s.knobs, c.quota, accepted, next);
    DueCount(c.pending, c.windowId + 1);
    ActIs(c, s, accepted, staleness <= s.knobs.staleCeiling, d, u);
  }

  lemma {:induction false} ActIs(c: Counters, s: Setup, accepted: nat, open: bool, d: Decision, u: Counters)
    requires d.thawOk <==> Surplus(s.knobs, d.quota, accepted, open)
    requires d.pinned == (if Surplus(s.knobs, d.quota, accepted, open) then c.pinned + 1 else 0)
    requires d.slack == (if Deficit(s.knobs, d.quota, accepted) then c.slack + 1 else 0)
    requires (d.schedule <==> d.pinned >= s.knobs.kSustain) && (d.freeze <==> d.slack >= s.knobs.kSustain)
    requires |Due(c.pending, c.windowId + 1)| == Matured(c.pending, c.windowId + 1)
    ensures u == Act(Open(c, s), s, d) <==> CountersTurn(c, s, accepted, open, d.quota, u)
  {
  }
}
