/**
 * What every account transaction does, account by account and field by field:
 * when it applies, who gains and who loses, and what else it records.
 */
module AccountLaw {
  import opened Sums
  import opened Ordering
  import opened Token
  import opened LedgerConservation
  import opened PayoutLaw

  // ---- when a transaction applies ----

  /** Entry i is the one a data id names. */
  ghost predicate Names(registry: seq<Entry>, id: Id, i: nat) {
    i < |registry| && registry[i].id == id && forall j :: 0 <= j < i ==> registry[j].id != id
  }

  ghost predicate LowerHex(s: string) {
    |s| == 64 && forall i :: 0 <= i < |s| ==> s[i] in "0123456789abcdef"
  }

  ghost predicate Allowed(l: Ledger, tx: Tx, jurors: set<Addr>) {
    tx.signed && tx.nonce == Get(l.nonces, tx.src) &&
    match tx
    case Transfer(_, src, _, _, _, amount) => amount > 0 && Get(l.balances, src) >= amount
    case Submit(txid, src, _, _, _, size, stake, root) =>
      && stake > 0 && Get(l.balances, src) >= stake && size > 0 && LowerHex(root)
      && forall i :: 0 <= i < |l.registry| ==> l.registry[i].id != txid
    case Contest(_, src, _, _, dataId, stake) =>
      && stake > 0 && Get(l.balances, src) >= stake
      && (exists i: nat :: Names(l.registry, dataId, i) && l.registry[i].active)
      && forall c :: c in l.challenges ==> l.challenges[c].dataId != dataId
    case Vote(_, src, _, _, cid, _) =>
      && cid in l.challenges && src in jurors && src != l.challenges[cid].challenger
      && src !in l.challenges[cid].votesFor && src !in l.challenges[cid].votesAgainst
      && forall i: nat :: Names(l.registry, l.challenges[cid].dataId, i) ==> src != l.registry[i].owner
    case Receipt(_, src, _, _, _, fee, _) => fee > 0 && Get(l.balances, src) >= fee
  }

  // ---- what it does ----

  /** From one map to the other, only the balances of the payer and the payees move. */
  ghost predicate Moves(b: map<Addr, nat>, c: map<Addr, nat>, payer: Addr, paid: int, payee: Addr, got: int) {
    forall a :: Get(c, a)
      == Get(b, a) - (if a == payer then paid else 0) + (if a == payee then got else 0)
  }

  /** The inner product of two sketches, over their common length. */
  ghost function Inner(a: seq<int>, b: seq<int>, n: nat): int
    requires n <= |a| && n <= |b|
  {
    if n == 0 then 0 else Inner(a, b, n - 1) + a[n - 1] * b[n - 1]
  }

  /** How far an entry's sketch points along the answer; nothing when it is revoked or points away. */
  ghost function Pull(e: Entry, answer: seq<int>): nat {
    var n := if |e.sketch| < |answer| then |e.sketch| else |answer|;
    if e.active && Inner(e.sketch, answer, n) > 0 then Inner(e.sketch, answer, n) else 0
  }

  /** The pull of one owner's entries. */
  ghost function PullOf(registry: seq<Entry>, answer: seq<int>, a: Addr): nat {
    if registry == [] then 0
    else PullOf(registry[..|registry| - 1], answer, a)
         + if registry[|registry| - 1].owner == a then Pull(registry[|registry| - 1], answer) else 0
  }

  ghost function PullOfAll(registry: seq<Entry>, answer: seq<int>): nat {
    if registry == [] then 0
    else PullOfAll(registry[..|registry| - 1], answer) + Pull(registry[|registry| - 1], answer)
  }

  /** An owner's part of the data slice, in proportion to its entries' pull; nothing when no entry pulls. */
  ghost function DataPart(registry: seq<Entry>, answer: seq<int>, slice: nat, a: Addr): nat {
    var all := PullOfAll(registry, answer);
    if all > 0 then slice * PullOf(registry, answer, a) / all else 0
  }

  /**
   * A fee: a fifth to the data, a fifth to training, the rest and the dust to the
   * server. The data slice goes to the owners whose entries pull along the answer.
   */
  ghost predicate Fees(
    registry: seq<Entry>, b: map<Addr, nat>, c: map<Addr, nat>, src: Addr, server: Addr, fee: nat, answer: seq<int>)
  {
    var slice := fee * 2_000 / 10_000;
    forall a {:trigger DataPart(registry, answer, slice, a)} :: Get(c, a) == Get(b, a)
      - (if a == src then fee else 0) + (if a == server then fee - 2 * slice else 0)
      + DataPart(registry, answer, slice, a)
  }

  ghost predicate Ascends(s: seq<Addr>) { forall i, j :: 0 <= i < j < |s| ==> s[i] <= s[j] }

  /** The vote is entered once, on the side it supports, and a sorted list stays sorted. */
  ghost predicate Casts(c: Challenge, d: Challenge, src: Addr, support: bool) {
    && d == c.(votesFor := d.votesFor, votesAgainst := d.votesAgainst)
    && multiset(d.votesFor) == multiset(c.votesFor) + (if support then multiset{src} else multiset{})
    && multiset(d.votesAgainst) == multiset(c.votesAgainst) + (if support then multiset{} else multiset{src})
    && (Ascends(c.votesFor) ==> Ascends(d.votesFor)) && (Ascends(c.votesAgainst) ==> Ascends(d.votesAgainst))
  }

  /** m is l after the transaction: the fields it names change as said, all others stay. */
  ghost predicate Changes(l: Ledger, tx: Tx, height: nat, m: Ledger) {
    && (forall a :: Get(m.nonces, a) == Get(l.nonces, a) + if a == tx.src then 1 else 0)
    && m.bonds == l.bonds
    && match tx
       case Transfer(_, src, _, _, recipient, amount) =>
         && Moves(l.balances, m.balances, src, amount, recipient, amount)
         && m.registry == l.registry && m.challenges == l.challenges
         && m.feeData == l.feeData && m.feeTrain == l.feeTrain
       case Submit(txid, src, _, _, hash, _, stake, _) =>
         && stake >= 0 && Moves(l.balances, m.balances, src, stake, src, 0)
         && |m.registry| == |l.registry| + 1 && m.registry[..|l.registry|] == l.registry
         && m.registry[|l.registry|] == Entry(txid, src, hash, stake, stake, true, [])
         && m.challenges == l.challenges && m.feeData == l.feeData && m.feeTrain == l.feeTrain
       case Contest(txid, src, _, _, dataId, stake) =>
         && stake >= 0 && Moves(l.balances, m.balances, src, stake, src, 0)
         && m.challenges == l.challenges[txid := Challenge(dataId, src, stake, height + 20, [], [])]
         && m.registry == l.registry && m.feeData == l.feeData && m.feeTrain == l.feeTrain
       case Vote(_, src, _, _, cid, support) =>
         && cid in l.challenges && cid in m.challenges
         && m.challenges == l.challenges[cid := m.challenges[cid]]
         && Casts(l.challenges[cid], m.challenges[cid], src, support)
         && m.balances == l.balances && m.registry == l.registry
         && m.feeData == l.feeData && m.feeTrain == l.feeTrain
       case Receipt(_, src, _, _, server, fee, answer) =>
         && fee >= 0 && Fees(l.registry, l.balances, m.balances, src, server, fee, answer)
         && m.feeTrain == l.feeTrain + fee * 2_000 / 10_000
         && m.feeData == l.feeData + (if PullOfAll(l.registry, answer) > 0 then 0 else fee * 2_000 / 10_000)
         && m.registry == l.registry && m.challenges == l.challenges
  }

  // ---- the proofs, one kind at a time ----

  /** The ledger with the sender's nonce moved on. */
  function Noted(m: Ledger, tx: Tx): Ledger
    requires tx.nonce >= 0
  {
    m.(nonces := m.nonces[tx.src := tx.nonce + 1])
  }

  lemma {:induction false} FindNames(registry: seq<Entry>, id: Id)
    ensures Find(registry, id) < |registry| ==> Names(registry, id, Find(registry, id))
    ensures Find(registry, id) == |registry| ==> forall i :: 0 <= i < |registry| ==> registry[i].id != id
    ensures forall i: nat :: Names(registry, id, i) ==> i == Find(registry, id)
  {
    FindFirst(registry, id);
    var k := Find(registry, id);
    forall i: nat | Names(registry, id, i) ensures i == k {
      assert !(i < k) && !(k < i);
    }
  }

  lemma {:induction false} FindFirst(registry: seq<Entry>, id: Id)
    ensures forall j :: 0 <= j < Find(registry, id) ==> registry[j].id != id
  {
    if registry != [] && registry[0].id != id {
      FindFirst(registry[1..], id);
      forall j | 0 <= j < Find(registry, id) ensures registry[j].id != id {
        if j > 0 { assert registry[j] == registry[1..][j - 1]; }
      }
    }
  }

  lemma {:induction false} RootIs(s: string)
    ensures WellFormedRoot(s) <==> LowerHex(s)
  {
    forall c: char ensures HexDigit(c) <==> c in "0123456789abcdef" { DigitIs(c); }
  }

  lemma {:induction false} DigitIs(c: char)
    ensures HexDigit(c) <==> c in "0123456789abcdef"
  {
  }

  lemma {:induction false} TransferChanges(l: Ledger, tx: Tx, height: nat, jurors: set<Addr>)
    requires tx.Transfer? && tx.signed && tx.nonce == Get(l.nonces, tx.src)
    ensures Transferred(l, tx).Some? <==> Allowed(l, tx, jurors)
    ensures Transferred(l, tx).Some? ==> Changes(l, tx, height, Noted(Transferred(l, tx).value, tx))
  {
  }

  lemma {:induction false} SubmitChanges(l: Ledger, tx: Tx, height: nat, jurors: set<Addr>)
    requires tx.Submit? && tx.signed && tx.nonce == Get(l.nonces, tx.src)
    ensures Submitted(l, tx).Some? <==> Allowed(l, tx, jurors)
    ensures Submitted(l, tx).Some? ==> Changes(l, tx, height, Noted(Submitted(l, tx).value, tx))
  {
    FindNames(l.registry, tx.txid);
    RootIs(tx.daRoot);
  }

  lemma {:induction false} ContestChanges(l: Ledger, tx: Tx, height: nat, jurors: set<Addr>)
    requires tx.Contest? && tx.signed && tx.nonce == Get(l.nonces, tx.src)
    ensures Contested(l, tx, height).Some? <==> Allowed(l, tx, jurors)
    ensures Contested(l, tx, height).Some? ==> Changes(l, tx, height, Noted(Contested(l, tx, height).value, tx))
  {
    FindNames(l.registry, tx.dataId);
  }

  lemma {:induction false} FrontAscends(x: Addr, rest: seq<Addr>)
    requires Ascends(rest) && forall y :: y in rest ==> x <= y
    ensures Ascends([x] + rest)
  {
    var all := [x] + rest;
    forall i, j | 0 <= i < j < |all| ensures all[i] <= all[j] {
      assert all[j] == rest[j - 1] && (i == 0 || all[i] == rest[i - 1]) && rest[j - 1] in rest;
    }
  }

  lemma {:induction false} InsertMembers(votes: seq<Addr>, a: Addr, y: Addr)
    requires y in Insert(votes, a)
    ensures y == a || y in votes
  {
    assert y in multiset(Insert(votes, a));
  }

  lemma {:induction false} InsertAscends(votes: seq<Addr>, a: Addr)
    requires Ascends(votes)
    ensures Ascends(Insert(votes, a))
  {
    if votes == [] || a <= votes[0] {
      FrontAscends(a, votes);
    } else {
      var rest := Insert(votes[1..], a);
      InsertAscends(votes[1..], a);
      forall y | y in rest ensures votes[0] <= y { InsertMembers(votes[1..], a, y); }
      FrontAscends(votes[0], rest);
    }
  }

  lemma {:induction false} InsertCasts(c: Challenge, src: Addr, support: bool)
    ensures Casts(c,
      if support then c.(votesFor := Insert(c.votesFor, src)) else c.(votesAgainst := Insert(c.votesAgainst, src)),
      src, support)
  {
    if Ascends(c.votesFor) { InsertAscends(c.votesFor, src); }
    if Ascends(c.votesAgainst) { InsertAscends(c.votesAgainst, src); }
  }

  lemma {:induction false} VoteAllowed(l: Ledger, tx: Tx, jurors: set<Addr>)
    requires tx.Vote? && tx.signed && tx.nonce == Get(l.nonces, tx.src)
    ensures Voted(l, tx, jurors).Some? <==> Allowed(l, tx, jurors)
  {
    if tx.challengeId in l.challenges { FindNames(l.registry, l.challenges[tx.challengeId].dataId); }
  }

  lemma {:induction false} VoteChanges(l: Ledger, tx: Tx, height: nat, jurors: set<Addr>)
    requires tx.Vote? && tx.signed && tx.nonce == Get(l.nonces, tx.src)
    ensures Voted(l, tx, jurors).Some? <==> Allowed(l, tx, jurors)
    ensures Voted(l, tx, jurors).Some? ==> Changes(l, tx, height, Noted(Voted(l, tx, jurors).value, tx))
  {
    VoteAllowed(l, tx, jurors);
    if tx.challengeId in l.challenges { InsertCasts(l.challenges[tx.challengeId], tx.src, tx.support); }
  }

  // ---- the fee ----

  lemma {:induction false} InnerFront(a: seq<int>, b: seq<int>, n: nat)
    requires 0 < n <= |a| && n <= |b|
    ensures Inner(a, b, n) == a[0] * b[0] + Inner(a[1..], b[1..], n - 1)
  {
    if n > 1 { InnerFront(a, b, n - 1); }
  }

  lemma {:induction false} DotIsInner(a: seq<int>, b: seq<int>, n: nat)
    requires n == if |a| < |b| then |a| else |b|
    ensures Dot(a, b) == Inner(a, b, n)
  {
    if n > 0 {
      InnerFront(a, b, n);
      DotIsInner(a[1..], b[1..], n - 1);
    }
  }

  lemma {:induction false} AlignmentIsPull(registry: seq<Entry>, answer: seq<int>, a: Addr)
    ensures Get(Alignments(registry, answer), a) == PullOf(registry, answer, a)
  {
    if registry != [] {
      var e := registry[|registry| - 1];
      AlignmentIsPull(registry[..|registry| - 1], answer, a);
      DotIsInner(e.sketch, answer, if |e.sketch| < |answer| then |e.sketch| else |answer|);
    }
  }

  lemma {:induction false} AlignmentsTotal(registry: seq<Entry>, answer: seq<int>)
    ensures MapSum(Alignments(registry, answer)) == PullOfAll(registry, answer)
  {
    if registry != [] {
      var e, m := registry[|registry| - 1], Alignments(registry[..|registry| - 1], answer);
      AlignmentsTotal(registry[..|registry| - 1], answer);
      DotIsInner(e.sketch, answer, if |e.sketch| < |answer| then |e.sketch| else |answer|);
      if Pull(e, answer) > 0 { SumUpdate(m, e.owner, Get(m, e.owner) + Pull(e, answer)); }
    }
  }

  ghost function Restrict(m: map<nat, nat>, keys: set<nat>): map<nat, nat> { map k | k in keys && k in m :: m[k] }

  /** The weights of a map's keys, in ascending order, sum to the map's values. */
  lemma {:induction false} WeightsTotal(m: map<nat, nat>, keys: set<nat>)
    requires keys <= m.Keys
    ensures SumSeq(WeightsOf(Ascending(keys), m)) == MapSum(Restrict(m, keys))
    decreases keys
  {
    if keys == {} {
      assert Restrict(m, keys) == map[];
    } else {
      var k := Least(keys);
      WeightsTotal(m, keys - {k});
      assert Ascending(keys) == [k] + Ascending(keys - {k});
      WeightsFront(k, Ascending(keys - {k}), m);
      SumFront(m[k], WeightsOf(Ascending(keys - {k}), m));
      SumRemove(Restrict(m, keys), k);
      assert Restrict(m, keys) - {k} == Restrict(m, keys - {k});
    }
  }

  lemma {:induction false} WeightsFront(k: nat, keys: seq<nat>, m: map<nat, nat>)
    ensures WeightsOf([k] + keys, m) == [Get(m, k)] + WeightsOf(keys, m)
  {
  }

  lemma {:induction false} SumFront(x: nat, s: seq<nat>)
    ensures SumSeq([x] + s) == x + SumSeq(s)
    decreases |s|
  {
    var all := [x] + s;
    if s == [] {
      assert all[..0] == [];
    } else {
      assert all[..|all| - 1] == [x] + s[..|s| - 1];
      SumFront(x, s[..|s| - 1]);
    }
  }

  /** A proportional split over distinct keys gives each its part. */
  lemma {:induction false} ShareOfKey(keys: set<nat>, m: map<nat, nat>, pool: nat, total: nat, a: nat)
    requires total > 0
    ensures PaidTo(Shares(Ascending(keys), WeightsOf(Ascending(keys), m), pool, total), a)
      == if a in keys then pool * Get(m, a) / total else 0
  {
    var who := Ascending(keys);
    var ws := WeightsOf(who, m);
    var pays := Shares(who, ws, pool, total);
    AscendingLists(keys);
    if a in keys {
      var k :| 0 <= k < |who| && who[k] == a;
      assert forall i :: 0 <= i < |pays| && i != k ==> who[i] < who[k] || who[k] < who[i];
      PaidToOnce(pays, k);
      ShareIsQuotient(pool, ws[k], total);
    } else {
      PaidToNobody(pays, a);
    }
  }

  lemma {:induction false} NoPart(pool: nat, total: nat)
    requires total > 0
    ensures pool * 0 / total == 0
  {
  }

  /** The data slice is paid out exactly when something pulls along the answer. */
  lemma {:induction false} AlignedTotal(registry: seq<Entry>, answer: seq<int>)
    ensures var m := Alignments(registry, answer);
      SumSeq(WeightsOf(Ascending(m.Keys), m)) == PullOfAll(registry, answer)
  {
    var m := Alignments(registry, answer);
    AlignmentsTotal(registry, answer);
    WeightsTotal(m, m.Keys);
    assert Restrict(m, m.Keys) == m;
  }

  /** What the data slice gives one owner. */
  lemma {:induction false} AlignedPart(registry: seq<Entry>, answer: seq<int>, cut: nat, a: Addr)
    ensures AlignedPays(registry, answer, cut).Some? <==> PullOfAll(registry, answer) > 0
    ensures AlignedPays(registry, answer, cut).Some? ==>
      PaidTo(AlignedPays(registry, answer, cut).value, a) == DataPart(registry, answer, cut, a)
  {
    var m := Alignments(registry, answer);
    AlignmentIsPull(registry, answer, a);
    AlignedTotal(registry, answer);
    if PullOfAll(registry, answer) > 0 {
      ShareOfKey(m.Keys, m, cut, PullOfAll(registry, answer), a);
      NoPart(cut, PullOfAll(registry, answer));
    }
  }

  lemma {:induction false} FeeChanges(l: Ledger, src: Addr, server: Addr, fee: nat, slice: nat, answer: seq<int>)
    requires fee <= Get(l.balances, src) && slice == fee * 2_000 / 10_000 && 2 * slice <= fee
    ensures var m := Serve(l, src, server, fee, slice, slice, answer);
      && Fees(l.registry, l.balances, m.balances, src, server, fee, answer)
      && m.feeTrain == l.feeTrain + slice
      && m.feeData == l.feeData + (if PullOfAll(l.registry, answer) > 0 then 0 else slice)
  {
    var m := Serve(l, src, server, fee, slice, slice, answer);
    var d := Debit(l, src, fee);
    var paid := Credit(d.balances, Pay(server, fee - slice - slice));
    var pays := AlignedPays(l.registry, answer, slice);
    AlignedPart(l.registry, answer, slice, src);
    forall a ensures Get(m.balances, a) == Get(l.balances, a)
      - (if a == src then fee else 0) + (if a == server then fee - 2 * slice else 0)
      + DataPart(l.registry, answer, slice, a)
    {
      AlignedPart(l.registry, answer, slice, a);
      if pays.Some? { CreditedAccount(paid, pays.value, a); }
    }
  }

  lemma {:induction false} FifthTwice(fee: nat)
    ensures Cut(fee, FEE_SHARE_DATA) == Cut(fee, FEE_SHARE_TRAIN) == fee * 2_000 / 10_000
    ensures 2 * (fee * 2_000 / 10_000) <= fee
  {
  }

  lemma {:induction false} ReceiptChanges(l: Ledger, tx: Tx, height: nat, jurors: set<Addr>)
    requires tx.Receipt? && tx.signed && tx.nonce == Get(l.nonces, tx.src)
    ensures Served(l, tx).Some? <==> Allowed(l, tx, jurors)
    ensures Served(l, tx).Some? ==> Changes(l, tx, height, Noted(Served(l, tx).value, tx))
  {
    if tx.fee > 0 && Get(l.balances, tx.src) >= tx.fee {
      FifthTwice(tx.fee);
      FeeChanges(l, tx.src, tx.server, tx.fee, tx.fee * 2_000 / 10_000, tx.answer);
    }
  }

  // ---- all kinds ----

  lemma {:induction false} EffectIs(l: Ledger, tx: Tx, height: nat, jurors: set<Addr>)
    requires tx.signed && tx.nonce == Get(l.nonces, tx.src)
    ensures Effect(l, tx, height, jurors).Some? <==> Allowed(l, tx, jurors)
    ensures Effect(l, tx, height, jurors).Some? ==>
      Changes(l, tx, height, Noted(Effect(l, tx, height, jurors).value, tx))
  {
    match tx
    case Transfer(_, _, _, _, _, _) => TransferChanges(l, tx, height, jurors);
    case Submit(_, _, _, _, _, _, _, _) => SubmitChanges(l, tx, height, jurors);
    case Contest(_, _, _, _, _, _) => ContestChanges(l, tx, height, jurors);
    case Vote(_, _, _, _, _, _) => VoteChanges(l, tx, height, jurors);
    case Receipt(_, _, _, _, _, _, _) => ReceiptChanges(l, tx, height, jurors);
  }

  /** A transaction applies exactly when it is allowed, and then it changes exactly what it says. */
  lemma {:induction false} ApplyIs(l: Ledger, tx: Tx, height: nat, jurors: set<Addr>)
    ensures ApplyTx(l, tx, height, jurors).Some? <==> Allowed(l, tx, jurors)
    ensures ApplyTx(l, tx, height, jurors).Some? ==> Changes(l, tx, height, ApplyTx(l, tx, height, jurors).value)
  {
    if tx.signed && tx.nonce == Get(l.nonces, tx.src) { EffectIs(l, tx, height, jurors); }
  }
}
