/** What closing challenges and maturing bonds do, account by account, and what locking a bond takes. */
module SettlementLaw {
  import opened Wrappers
  import opened Sums
  import opened Ordering
  import opened Token
  import opened LedgerMarket
  import opened AccountLaw

  // ---- bonds ----

  /** The matured bonds of one miner. */
  ghost function Matured(bonds: map<Id, Bond>, height: nat, a: Addr): map<Id, nat> {
    map t | t in bonds && bonds[t].expiry <= height && bonds[t].miner == a :: bonds[t].amount
  }

  lemma {:induction false} MaturedWithout(bonds: map<Id, Bond>, height: nat, a: Addr, t: Id)
    requires t in bonds && bonds[t].expiry <= height
    ensures MapSum(Matured(bonds, height, a))
      == MapSum(Matured(bonds - {t}, height, a)) + if bonds[t].miner == a then bonds[t].amount else 0
  {
    var m := Matured(bonds, height, a);
    assert Matured(bonds - {t}, height, a) == m - {t};
    if t in m { SumRemove(m, t); } else { assert m - {t} == m; }
  }

  /** Going through a list of bonds: what was released went to its miners, what is left is still to come. */
  lemma {:induction false} ReleaseAllPays(l: Ledger, tids: seq<Id>, height: nat, a: Addr)
    ensures var s := ReleaseAll(l, tids, height);
      && s == l.(balances := s.balances, bonds := s.bonds)
      && Get(s.balances, a) + MapSum(Matured(s.bonds, height, a))
         == Get(l.balances, a) + MapSum(Matured(l.bonds, height, a))
      && (forall t :: t in s.bonds <==> t in l.bonds && !(t in tids && l.bonds[t].expiry <= height))
      && (forall t :: t in s.bonds ==> s.bonds[t] == l.bonds[t])
    decreases |tids|
  {
    if tids != [] {
      var init, tid := tids[..|tids| - 1], tids[|tids| - 1];
      ReleaseAllPays(l, init, height, a);
      var s := ReleaseAll(l, init, height);
      assert forall t :: t in tids <==> t in init || t == tid;
      if tid in s.bonds && s.bonds[tid].expiry <= height { MaturedWithout(s.bonds, height, a, tid); }
    }
  }

  /** Every matured bond goes back to its own miner; the others stay locked, and nothing else moves. */
  lemma {:induction false} BondsReleased(l: Ledger, height: nat, a: Addr)
    ensures var m := ResolveBonds(l, height);
      && m == l.(balances := m.balances, bonds := m.bonds)
      && m.bonds == (map t | t in l.bonds && l.bonds[t].expiry > height :: l.bonds[t])
      && Get(m.balances, a) == Get(l.balances, a) + MapSum(Matured(l.bonds, height, a))
  {
    var tids := Ascending(l.bonds.Keys);
    var m := ReleaseAll(l, tids, height);
    AscendingLists(l.bonds.Keys);
    ReleaseAllPays(l, tids, height, a);
    assert Matured(m.bonds, height, a) == map[];
  }

  /** A bond is locked when its miner can pay it; nothing is locked for an amount of zero or less. */
  lemma {:induction false} LockIs(l: Ledger, tid: Id, miner: Addr, amount: int, height: nat)
    ensures LockBond(l, tid, miner, amount, height).None? <==> amount > 0 && Get(l.balances, miner) < amount
    ensures amount <= 0 ==> LockBond(l, tid, miner, amount, height) == Some(l)
    ensures 0 < amount <= Get(l.balances, miner) ==>
      var m := LockBond(l, tid, miner, amount, height).value;
      && Moves(l.balances, m.balances, miner, amount, miner, 0)
      && m == l.(balances := m.balances, bonds := l.bonds[tid := Bond(miner, amount, height + 20)])
  {
  }

  /** What a block's deltas bond for one miner; nothing for an amount of zero or less. */
  ghost function Bonded(deltas: seq<DeltaTx>, a: Addr): nat {
    if deltas == [] then 0
    else
      var d := deltas[|deltas| - 1];
      Bonded(deltas[..|deltas| - 1], a) + if d.miner == a && d.bond > 0 then d.bond else 0
  }

  /** A block's bonds are locked exactly when every miner can pay all of its own, and then each pays them. */
  lemma {:induction false} LocksExactly(l: Ledger, deltas: seq<DeltaTx>, height: nat)
    ensures LockBonds(l, deltas, height).Some? <==> forall a :: Bonded(deltas, a) <= Get(l.balances, a)
    ensures LockBonds(l, deltas, height).Some? ==>
      forall a :: Get(LockBonds(l, deltas, height).value.balances, a) + Bonded(deltas, a) == Get(l.balances, a)
    decreases |deltas|
  {
    if deltas != [] {
      var init, d := deltas[..|deltas| - 1], deltas[|deltas| - 1];
      LocksExactly(l, init, height);
      var r := LockBonds(l, init, height);
      if r.Some? {
        LockIs(r.value, d.txid, d.miner, d.bond, height);
        assert Get(r.value.balances, d.miner) + Bonded(init, d.miner) == Get(l.balances, d.miner);
      } else {
        var a :| Bonded(init, a) > Get(l.balances, a);
        assert Bonded(deltas, a) >= Bonded(init, a);
      }
    }
  }

  /**
   * A valid block's bonds come out of what its miners have once challenges, bonds
   * and the reward are settled, and before any of its account transactions.
   */
  lemma {:induction false} BondsBeforeTxs(l: Ledger, b: BlockBody, height: nat, a: Addr)
    requires ApplyBlock(l, b, height).Some?
    ensures Provenance(ResolveBonds(ResolveChallenges(l, height), height).registry, b.deltas)
    ensures var s := ResolveBonds(ResolveChallenges(l, height), height);
      var r := s.(registry := Sketches(s.registry, b.deltas));
      Bonded(b.deltas, a) <= Get(Reward(r, height, BlockPayees(r.registry, b)).balances, a)
  {
    LocksExactly(Paying(l, b, height).value, b.deltas, height);
  }

  // ---- challenges ----

  /** At least three votes for, and more for than against. */
  ghost predicate Won(c: Challenge) { |c.votesFor| >= 3 && |c.votesFor| > |c.votesAgainst| }

  /**
   * What account a gains from the verdict on c: a winning challenger gets its own
   * stake and the entry's, otherwise the entry's owner gets the challenger's stake.
   */
  ghost function Gain(registry: seq<Entry>, c: Challenge, a: Addr): nat {
    if registry == [] then 0
    else
      var e := registry[|registry| - 1];
      Gain(registry[..|registry| - 1], c, a)
      + if e.id != c.dataId then 0
        else if Won(c) then (if a == c.challenger then e.stake + c.stake else 0)
        else (if a == e.owner then c.stake else 0)
  }

  /** What the closed challenges give account a. */
  ghost function Gains(registry: seq<Entry>, m: map<Id, Challenge>, height: nat, a: Addr): map<Id, nat> {
    map c | c in m && m[c].expiry <= height :: Gain(registry, m[c], a)
  }

  ghost predicate Loses(l: Ledger, c: Id, id: Id, height: nat) {
    c in l.challenges && l.challenges[c].dataId == id && l.challenges[c].expiry <= height && Won(l.challenges[c])
  }

  /** A closed challenge was won against the entry. */
  ghost predicate Convicted(l: Ledger, id: Id, height: nat) { exists c: Id :: Loses(l, c, id, height) }

  lemma {:induction false} NoGain(registry: seq<Entry>, c: Challenge, a: Addr)
    requires forall i :: 0 <= i < |registry| ==> registry[i].id != c.dataId
    ensures Gain(registry, c, a) == 0
  {
    if registry != [] { NoGain(registry[..|registry| - 1], c, a); }
  }

  lemma {:induction false} GainAt(registry: seq<Entry>, c: Challenge, a: Addr, i: nat)
    requires Unique(registry) && i < |registry| && registry[i].id == c.dataId
    ensures Gain(registry, c, a) ==
      if Won(c) then (if a == c.challenger then registry[i].stake + c.stake else 0)
      else (if a == registry[i].owner then c.stake else 0)
    decreases |registry|
  {
    var init := registry[..|registry| - 1];
    if i == |init| { NoGain(init, c, a); } else { GainAt(init, c, a, i); }
  }

  lemma {:induction false} GainsWithout(registry: seq<Entry>, m: map<Id, Challenge>, height: nat, a: Addr, c: Id)
    requires c in m && m[c].expiry <= height
    ensures MapSum(Gains(registry, m, height, a))
      == Gain(registry, m[c], a) + MapSum(Gains(registry, m - {c}, height, a))
  {
    SumRemove(Gains(registry, m, height, a), c);
    assert Gains(registry, m, height, a) - {c} == Gains(registry, m - {c}, height, a);
  }

  /** Part of the way: challenge c has been settled when it is closed and no longer there. */
  ghost predicate Touched(l: Ledger, s: Ledger, id: Id) {
    exists c: Id :: c in l.challenges && c !in s.challenges && l.challenges[c].dataId == id && Won(l.challenges[c])
  }

  ghost predicate Sentenced(l: Ledger, s: Ledger, i: nat)
    requires i < |l.registry| == |s.registry|
  {
    s.registry[i] == AfterVerdict(l.registry[i], Touched(l, s, l.registry[i].id))
  }

  /** s is l with some challenges settled. */
  ghost predicate Underway(l: Ledger, s: Ledger) {
    && Market(l) && s == l.(balances := s.balances, registry := s.registry, challenges := s.challenges)
    && s.challenges.Keys <= l.challenges.Keys && (forall c :: c in s.challenges ==> s.challenges[c] == l.challenges[c])
    && |s.registry| == |l.registry|
    && forall i {:trigger Sentenced(l, s, i)} :: 0 <= i < |l.registry| ==> Sentenced(l, s, i)
  }

  lemma {:induction false} SameIds(l: Ledger, s: Ledger)
    requires Underway(l, s)
    ensures Unique(s.registry)
  {
    forall i, j | 0 <= i < j < |s.registry| ensures s.registry[i].id != s.registry[j].id {
      assert Sentenced(l, s, i) && Sentenced(l, s, j);
    }
  }

  /** The entry of an open challenge is still as it was. */
  lemma {:induction false} Untouched(l: Ledger, s: Ledger, cid: Id) returns (i: nat)
    requires Underway(l, s) && cid in s.challenges
    ensures i < |l.registry| && l.registry[i].id == l.challenges[cid].dataId && s.registry[i] == l.registry[i]
    ensures Find(s.registry, l.challenges[cid].dataId) == i
  {
    i := TargetOf(l, cid);
    assert !Touched(l, s, l.registry[i].id);
    assert Sentenced(l, s, i);
    SameIds(l, s);
    FindsUnique(s.registry, i);
  }

  lemma {:induction false} TouchedAfter(l: Ledger, s: Ledger, t: Ledger, cid: Id, id: Id)
    requires cid in l.challenges && cid in s.challenges && t.challenges == s.challenges - {cid}
    ensures Touched(l, t, id)
      <==> Touched(l, s, id) || (l.challenges[cid].dataId == id && Won(l.challenges[cid]))
  {
    if d: Id :| d in l.challenges && d !in s.challenges && l.challenges[d].dataId == id && Won(l.challenges[d]) {
      assert d !in t.challenges;
    }
    if l.challenges[cid].dataId == id && Won(l.challenges[cid]) { assert cid !in t.challenges; }
    if d: Id :| d in l.challenges && d !in t.challenges && l.challenges[d].dataId == id && Won(l.challenges[d]) {
      assert d == cid || d !in s.challenges;
    }
  }

  lemma {:induction false} SettleStep(l: Ledger, s: Ledger, t: Ledger, cid: Id, i: nat)
    requires Underway(l, s) && cid in s.challenges && i < |l.registry|
    requires l.registry[i].id == l.challenges[cid].dataId && s.registry[i] == l.registry[i]
    requires t.challenges == s.challenges - {cid} && t == s.(balances := t.balances, registry := t.registry,
      challenges := t.challenges)
    requires t.registry == s.registry[i := AfterVerdict(s.registry[i], Won(l.challenges[cid]))]
    ensures Underway(l, t)
  {
    forall j | 0 <= j < |l.registry| ensures Sentenced(l, t, j) {
      assert Sentenced(l, s, j);
      assert j != i ==> l.registry[j].id != l.registry[i].id;
      TouchedAfter(l, s, t, cid, l.registry[j].id);
    }
  }

  lemma {:induction false} SettleIs(l: Ledger, cid: Id, i: nat)
    requires cid in l.challenges && i < |l.registry| && Find(l.registry, l.challenges[cid].dataId) == i
    ensures var t := Settle(l, cid);
      && t.challenges == l.challenges - {cid}
      && t == l.(balances := t.balances, registry := t.registry, challenges := t.challenges)
      && t.registry == l.registry[i := AfterVerdict(l.registry[i], Won(l.challenges[cid]))]
  {
    SettleShape(l, cid, i);
  }

  lemma {:induction false} SettlePays(l: Ledger, cid: Id, i: nat, a: Addr)
    requires cid in l.challenges && i < |l.registry| && Find(l.registry, l.challenges[cid].dataId) == i
    ensures var c, e := l.challenges[cid], l.registry[i];
      Get(Settle(l, cid).balances, a) == Get(l.balances, a) +
        if Won(c) then (if a == c.challenger then e.stake + c.stake else 0) else (if a == e.owner then c.stake else 0)
  {
  }

  lemma {:induction false} SettleAllKept(l: Ledger, cids: seq<Id>, height: nat)
    requires Market(l)
    ensures Underway(l, SettleAll(l, cids, height))
    ensures var s := SettleAll(l, cids, height);
      forall c :: c in s.challenges <==> c in l.challenges && !(c in cids && l.challenges[c].expiry <= height)
    decreases |cids|
  {
    if cids == [] {
      forall i | 0 <= i < |l.registry| ensures Sentenced(l, l, i) {
      }
    } else {
      var init, cid := cids[..|cids| - 1], cids[|cids| - 1];
      SettleAllKept(l, init, height);
      var s := SettleAll(l, init, height);
      assert forall c :: c in cids <==> c in init || c == cid;
      if cid in s.challenges && s.challenges[cid].expiry <= height {
        var i := Untouched(l, s, cid);
        SettleIs(s, cid, i);
        SettleStep(l, s, Settle(s, cid), cid, i);
      }
    }
  }

  lemma {:induction false} SettleAllPays(l: Ledger, cids: seq<Id>, height: nat, a: Addr)
    requires Market(l)
    ensures var s := SettleAll(l, cids, height);
      Get(s.balances, a) + MapSum(Gains(l.registry, s.challenges, height, a))
      == Get(l.balances, a) + MapSum(Gains(l.registry, l.challenges, height, a))
    decreases |cids|
  {
    if cids != [] {
      var init, cid := cids[..|cids| - 1], cids[|cids| - 1];
      SettleAllPays(l, init, height, a);
      SettleAllKept(l, init, height);
      var s := SettleAll(l, init, height);
      if cid in s.challenges && s.challenges[cid].expiry <= height {
        var i := Untouched(l, s, cid);
        SettleIs(s, cid, i);
        SettlePays(s, cid, i, a);
        GainAt(l.registry, l.challenges[cid], a, i);
        GainsWithout(l.registry, s.challenges, height, a, cid);
      }
    }
  }

  lemma {:induction false} AllSettled(l: Ledger, height: nat) returns (m: Ledger)
    requires Market(l)
    ensures m == ResolveChallenges(l, height) && Underway(l, m)
    ensures forall c :: c in m.challenges <==> c in l.challenges && l.challenges[c].expiry > height
  {
    AscendingLists(l.challenges.Keys);
    SettleAllKept(l, Ascending(l.challenges.Keys), height);
    m := ResolveChallenges(l, height);
  }

  /**
   * In every market, closing challenges pays each verdict's winner and nobody
   * else, and keeps exactly the challenges still open.
   */
  lemma {:induction false} ChallengesSettled(l: Ledger, height: nat, a: Addr)
    requires Market(l)
    ensures var m := ResolveChallenges(l, height);
      && m == l.(balances := m.balances, registry := m.registry, challenges := m.challenges)
      && m.challenges == (map c | c in l.challenges && l.challenges[c].expiry > height :: l.challenges[c])
      && Get(m.balances, a) == Get(l.balances, a) + MapSum(Gains(l.registry, l.challenges, height, a))
  {
    var m := AllSettled(l, height);
    SettleAllPays(l, Ascending(l.challenges.Keys), height, a);
    assert Gains(l.registry, m.challenges, height, a) == map[];
  }

  /** It revokes exactly the entries that lost, and takes their stakes. */
  lemma {:induction false} LosersRevoked(l: Ledger, height: nat, i: nat)
    requires Market(l) && i < |l.registry|
    ensures |ResolveChallenges(l, height).registry| == |l.registry|
    ensures Sanctioned(l, ResolveChallenges(l, height), height, i)
  {
    var m := AllSettled(l, height);
    assert Sentenced(l, m, i);
    ConvictedIsTouched(l, m, l.registry[i].id, height);
  }

  /** An entry that lost a challenge is revoked and its stake gone; any other is as it was. */
  ghost predicate Sanctioned(l: Ledger, m: Ledger, height: nat, i: nat)
    requires i < |l.registry| == |m.registry|
  {
    var e := l.registry[i];
    m.registry[i] == if Convicted(l, e.id, height) then e.(active := false, stake := 0) else e
  }

  lemma {:induction false} ConvictedIsTouched(l: Ledger, m: Ledger, id: Id, height: nat)
    requires forall c :: c in m.challenges <==> c in l.challenges && l.challenges[c].expiry > height
    ensures Touched(l, m, id) <==> Convicted(l, id, height)
  {
    if c: Id :| Loses(l, c, id, height) { assert c !in m.challenges; }
    if c: Id :| c in l.challenges && c !in m.challenges && l.challenges[c].dataId == id && Won(l.challenges[c]) {
      assert Loses(l, c, id, height);
    }
  }
}
