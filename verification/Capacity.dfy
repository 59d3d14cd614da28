/** The integer capacity controller of rig/capacity.py. */
module Capacity {
  import opened Division

  const QUOTA_ONE_4DP: nat := 10_000
  const DAMP_DIV: nat := 4

  datatype Knobs = Knobs(
    quotaMin: nat, quotaMax: nat, target: nat, dampDiv: nat, staleCeiling: nat, kSustain: nat)
  {
    /** What the constants must satisfy for the controller's divisions and its starting quota to make sense. */
    predicate Valid() {
      && target > 0 && dampDiv > 0
      && quotaMin <= QUOTA_ONE_4DP <= quotaMax
    }

    /** The quota from which a window counts as pinned at the ceiling. */
    function Ceiling(): nat { quotaMax * 95 / 100 }
  }

  datatype Decision = Decision(
    quota: nat, pinned: nat, slack: nat, schedule: bool, freeze: bool, thawOk: bool)

  /** The uncorrected quota that would have met the target exactly. */
  function Raw(quota: nat, accepted: nat, k: Knobs): nat
    requires k.Valid()
  {
    if accepted > 0 then quota * accepted / k.target else k.quotaMin
  }

  /** The fast knob: a damped step toward Raw, clamped to the band. */
  function NextQuota(quota: nat, accepted: nat, k: Knobs): nat
    requires k.Valid()
  {
    var damped := quota + (Raw(quota, accepted, k) - quota) / k.dampDiv;
    var raised := if damped < k.quotaMin then k.quotaMin else damped;
    if raised > k.quotaMax then k.quotaMax else raised
  }

  /** retarget_decide: one window's decision. */
  function Decide(quota: nat, pinned: nat, slack: nat, accepted: nat, staleness: nat, k: Knobs): Decision
    requires k.Valid()
  {
    var q := NextQuota(quota, accepted, k);
    var surplus := q >= k.Ceiling() && staleness <= k.staleCeiling && accepted >= k.target;
    var deficit := q <= k.quotaMin * 105 / 100 && accepted < k.target;
    var pinned' := if surplus then pinned + 1 else 0;
    var slack' := if deficit then slack + 1 else 0;
    Decision(q, pinned', slack', pinned' >= k.kSustain, slack' >= k.kSustain, surplus)
  }

  lemma {:induction false} DecideBand(quota: nat, pinned: nat, slack: nat, accepted: nat, staleness: nat, k: Knobs)
    requires k.Valid()
    ensures k.quotaMin <= Decide(quota, pinned, slack, accepted, staleness, k).quota <= k.quotaMax
  {
  }

  /** Under sustained demand above target the fast knob climbs at least one unit per window until it is capped. */
  lemma {:induction false} QuotaClimbs(quota: nat, accepted: nat, k: Knobs)
    requires k.Valid() && k.dampDiv * k.target <= k.quotaMin <= quota <= k.quotaMax && accepted > k.target
    ensures var q := NextQuota(quota, accepted, k);
      q >= quota && (q > quota || q == k.quotaMax)
  {
    RawExceeds(quota, accepted, k);
    DivideAtLeast(Raw(quota, accepted, k) - quota, k.dampDiv, 1);
  }

  lemma {:induction false} Headroom(q: nat, a: nat, t: nat, d: nat)
    requires d * t <= q && a > t
    ensures q * a >= (q + d) * t
  {
    MulMonotone(q, t + 1, a);
    calc {
      (q + d) * t;
    ==
      q * t + d * t;
    <=
      q * t + q;
    ==
      q * (t + 1);
    }
  }

  lemma {:induction false} RawExceeds(quota: nat, accepted: nat, k: Knobs)
    requires k.Valid() && k.dampDiv * k.target <= quota && accepted > k.target
    ensures Raw(quota, accepted, k) >= quota + k.dampDiv
  {
    Headroom(quota, accepted, k.target, k.dampDiv);
    DivideAtLeast(quota * accepted, k.target, quota + k.dampDiv);
  }

  lemma {:induction false} DivideAtLeast(x: int, n: nat, q: int)
    requires n > 0 && x >= q * n
    ensures x / n >= q
  {
    var d := x / n;
    assert x < n * (d + 1);
    assert d < q ==> n * (d + 1) <= n * q;
  }

  // ---- the standalone counter controller ----

  datatype Counters = Counters(
    quota: nat, pinned: nat, slack: nat, pending: seq<nat>, windowId: nat, total: nat, active: nat)

  datatype Setup = Setup(knobs: Knobs, growthBound: nat, announceLead: nat, minActive: nat)

  datatype Events = Events(grew: nat, thawed: nat, scheduled: nat, froze: nat)

  function Due(pending: seq<nat>, window: nat): seq<nat> {
    if pending == [] then []
    else (if pending[0] <= window then [pending[0]] else []) + Due(pending[1..], window)
  }

  function NotDue(pending: seq<nat>, window: nat): seq<nat> {
    if pending == [] then []
    else (if pending[0] > window then [pending[0]] else []) + NotDue(pending[1..], window)
  }

  /** Open the next window: due growth events take effect. */
  function Open(c: Counters, s: Setup): Counters {
    var window := c.windowId + 1;
    var grown := |Due(c.pending, window)| * s.growthBound;
    c.(windowId := window, pending := NotDue(c.pending, window),
       total := c.total + grown, active := c.active + grown)
  }

  /** Act on a decision: recovery before growth, then decline. */
  function Act(c: Counters, s: Setup, d: Decision): Counters {
    var thaw := d.thawOk && c.active < c.total;
    var grow := !thaw && d.schedule && c.pending == [];
    var active := if thaw then c.active + 1 else c.active;
    var freeze := d.freeze && active > s.minActive;
    Counters(
      if grow then (s.knobs.quotaMin + s.knobs.quotaMax) / 2 else d.quota,
      if thaw || grow then 0 else d.pinned,
      if freeze then 0 else d.slack,
      if grow then c.pending + [c.windowId + s.announceLead] else c.pending,
      c.windowId,
      c.total,
      if freeze then active - 1 else active)
  }

  /** observe_window as a function of the counters. */
  function Observe(c: Counters, s: Setup, accepted: nat, staleness: nat): Counters
    requires s.knobs.Valid()
  {
    Act(Open(c, s), s, Decide(c.quota, c.pinned, c.slack, accepted, staleness, s.knobs))
  }

  class CapacityRetarget {
    const setup: Setup
    var quota: nat
    var pinned: nat
    var slack: nat
    var pending: seq<nat>
    var windowId: nat
    var total: nat
    var active: nat

    constructor (setup: Setup, modules: nat)
      ensures this.setup == setup
      ensures View() == Counters(QUOTA_ONE_4DP, 0, 0, [], 0, modules, modules)
    {
      this.setup := setup;
      quota, pinned, slack, pending, windowId := QUOTA_ONE_4DP, 0, 0, [], 0;
      total, active := modules, modules;
    }

    ghost function View(): Counters
      reads this
    {
      Counters(quota, pinned, slack, pending, windowId, total, active)
    }

    /** Apply n due growth events. */
    method Grow(n: nat) returns (grew: nat)
      modifies this`total, this`active
      ensures grew == n * setup.growthBound
      ensures total == old(total) + grew && active == old(active) + grew
    {
      grew := 0;
      for i := 0 to n
        invariant grew == i * setup.growthBound
        invariant total == old(total) + grew && active == old(active) + grew
      {
        total, active := total + setup.growthBound, active + setup.growthBound;
        grew := grew + setup.growthBound;
      }
    }

    method ObserveWindow(accepted: nat, staleness: nat) returns (e: Events)
      requires setup.knobs.Valid()
      modifies this
      ensures View() == Observe(old(View()), setup, accepted, staleness)
      ensures total == old(total) + e.grew
      ensures active == old(active) + e.grew + e.thawed - e.froze
      ensures pending == NotDue(old(pending), windowId)
        + if e.scheduled == 1 then [windowId + setup.announceLead] else []
      ensures e.froze <= 1 && e.thawed <= 1 && e.scheduled <= 1 && (e.thawed == 1 ==> e.scheduled == 0)
      ensures e.thawed == 1 <==>
        Decide(old(quota), old(pinned), old(slack), accepted, staleness, setup.knobs).thawOk && old(active) < old(total)
    {
      windowId := windowId + 1;
      var due := Due(pending, windowId);
      var grew := Grow(|due|);
      pending := NotDue(pending, windowId);
      assert View() == Open(old(View()), setup);
      var acted := ActOn(Decide(quota, pinned, slack, accepted, staleness, setup.knobs));
      e := acted.(grew := grew);
    }

    method ActOn(d: Decision) returns (e: Events)
      modifies this
      ensures View() == Act(old(View()), setup, d)
      ensures e.grew == 0 && active == old(active) + e.thawed - e.froze
      ensures pending == old(pending) + if e.scheduled == 1 then [windowId + setup.announceLead] else []
      ensures e.froze <= 1 && e.thawed <= 1 && e.scheduled <= 1 && (e.thawed == 1 ==> e.scheduled == 0)
      ensures e.thawed == 1 <==> d.thawOk && old(active) < old(total)
    {
      e := Events(0, 0, 0, 0);
      quota, pinned, slack := d.quota, d.pinned, d.slack;
      if d.thawOk && active < total {
        active := active + 1;
        e := e.(thawed := 1);
        pinned := 0;
      } else if d.schedule && pending == [] {
        pending := pending + [windowId + setup.announceLead];
        e := e.(scheduled := 1);
        pinned := 0;
        quota := (setup.knobs.quotaMin + setup.knobs.quotaMax) / 2;
      }
      if d.freeze && active > setup.minActive {
        active := active - 1;
        e := e.(froze := 1);
        slack := 0;
      }
    }
  }
}
