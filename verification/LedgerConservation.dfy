/** No run of the ledger ever holds more than the emission schedule has minted. */
module LedgerConservation {
  import opened Wrappers
  import opened Division
  import opened Sums
  import opened Ordering
  import opened Token

  // ---- what the ledger holds ----

  ghost function Stakes(registry: seq<Entry>): nat {
    if registry == [] then 0 else Stakes(registry[..|registry| - 1]) + registry[|registry| - 1].stake
  }

  ghost function ChallengeStakes(m: map<Id, Challenge>): map<Id, nat> { map c | c in m :: m[c].stake }

  ghost function BondAmounts(m: map<Id, Bond>): map<Id, nat> { map t | t in m :: m[t].amount }

  /** Balances, registry stakes, challenge stakes, bonds and both fee pools. */
  ghost function Total(l: Ledger): nat {
    MapSum(l.balances) + Stakes(l.registry) + MapSum(ChallengeStakes(l.challenges)) + MapSum(BondAmounts(l.bonds))
    + l.feeData + l.feeTrain
  }

  ghost function PaySum(pays: seq<Pay>): nat {
    if pays == [] then 0 else PaySum(pays[..|pays| - 1]) + pays[|pays| - 1].amount
  }

  lemma {:induction false} CreditSum(b: map<Addr, nat>, p: Pay)
    ensures MapSum(Credit(b, p)) == MapSum(b) + p.amount
  {
    SumUpdate(b, p.who, Get(b, p.who) + p.amount);
  }

  lemma {:induction false} CreditAllSum(b: map<Addr, nat>, pays: seq<Pay>)
    ensures MapSum(CreditAll(b, pays)) == MapSum(b) + PaySum(pays)
  {
    if pays != [] {
      CreditAllSum(b, pays[..|pays| - 1]);
      CreditSum(CreditAll(b, pays[..|pays| - 1]), pays[|pays| - 1]);
    }
  }

  // ---- splits never exceed the pool ----

  /** A share is pool * w // total. */
  lemma {:induction false} ShareIsQuotient(pool: nat, w: nat, total: nat)
    requires total > 0
    ensures Quotient(Product(pool, w), total) == pool * w / total
  {
    ProductIs(pool, w);
    QuotientIs(pool * w, total);
  }

  lemma {:induction false} ProductIs(p: nat, w: nat)
    ensures Product(p, w) == p * w
  {
    if w > 0 {
      ProductIs(p, w - 1);
      assert p * w == p * (w - 1) + p;
    }
  }

  lemma {:induction false} QuotientIs(x: nat, n: nat)
    requires n > 0
    ensures Quotient(x, n) == x / n && n * Quotient(x, n) <= x
  {
    if x >= n {
      QuotientIs(x - n, n);
      AddDivisor(x - n, n);
    } else {
      DivMod(0, n, x);
    }
  }

  lemma {:induction false} LastShare(pool: nat, w: nat, total: nat)
    requires total > 0
    ensures total * Quotient(Product(pool, w), total) <= pool * w
  {
    ProductIs(pool, w);
    QuotientIs(pool * w, total);
  }

  lemma {:induction false} Combine(total: nat, paid: nat, last: nat, pool: nat, sum: nat, w: nat)
    requires total * paid <= pool * sum && total * last <= pool * w
    ensures total * (paid + last) <= pool * (sum + w)
  {
    assert total * (paid + last) == total * paid + total * last;
    assert pool * (sum + w) == pool * sum + pool * w;
  }

  lemma {:induction false} SharesScaled(who: seq<Addr>, ws: seq<nat>, pool: nat, total: nat)
    requires |who| == |ws| && total > 0
    ensures total * PaySum(Shares(who, ws, pool, total)) <= pool * SumSeq(ws)
    decreases |who|
  {
    var n := |who|;
    if n > 0 {
      var pays := Shares(who, ws, pool, total);
      var init, last := pays[..n - 1], pays[n - 1].amount;
      SharesScaled(who[..n - 1], ws[..n - 1], pool, total);
      assert init == Shares(who[..n - 1], ws[..n - 1], pool, total);
      LastShare(pool, ws[n - 1], total);
      Combine(total, PaySum(init), last, pool, SumSeq(ws[..n - 1]), ws[n - 1]);
    }
  }

  lemma {:induction false} CancelFactor(n: nat, x: nat, y: nat)
    requires n > 0 && n * x <= y * n
    ensures x <= y
  {
    if x > y { MulMonotone(n, y + 1, x); }
  }

  lemma {:induction false} SharesBound(who: seq<Addr>, ws: seq<nat>, pool: nat)
    requires |who| == |ws| && SumSeq(ws) > 0
    ensures PaySum(Shares(who, ws, pool, SumSeq(ws))) <= pool
  {
    SharesScaled(who, ws, pool, SumSeq(ws));
    CancelFactor(SumSeq(ws), PaySum(Shares(who, ws, pool, SumSeq(ws))), pool);
  }

  lemma {:induction false} ConstantSum(pays: seq<Pay>, each: nat)
    requires forall i :: 0 <= i < |pays| ==> pays[i].amount == each
    ensures PaySum(pays) == |pays| * each
  {
    if pays != [] {
      ConstantSum(pays[..|pays| - 1], each);
      assert |pays| * each == (|pays| - 1) * each + each;
    }
  }

  lemma {:induction false} EqualBound(who: seq<Addr>, pool: nat)
    requires who != []
    ensures PaySum(EqualShares(who, pool)) <= pool
  {
    ConstantSum(EqualShares(who, pool), Quotient(pool, |who|));
    QuotientIs(pool, |who|);
  }

  lemma {:induction false} MinerPaysBound(miners: seq<Addr>, weights: map<Addr, nat>, pool: nat)
    requires miners != []
    ensures PaySum(MinerPays(miners, weights, pool)) <= pool
  {
    var keys := Ascending(set a | a in miners);
    var ws := WeightsOf(keys, weights);
    if SumSeq(ws) > 0 { SharesBound(keys, ws, pool); } else { EqualBound(miners, pool); }
  }

  lemma {:induction false} DataPaysBound(registry: seq<Entry>, credits: map<Content, nat>, pool: nat)
    ensures PaySum(DataPays(registry, credits, pool)) <= pool
  {
    var keys := Ascending(Paid(registry, credits));
    AscendingLists(Paid(registry, credits));
    var ws := WeightsOf(keys, credits);
    if SumSeq(ws) > 0 { SharesBound(Owners(registry, keys), ws, pool); }
  }

  // ---- each step ----

  lemma {:induction false} StakesUpdate(registry: seq<Entry>, i: nat, e: Entry)
    requires i < |registry|
    ensures Stakes(registry[i := e]) + registry[i].stake == Stakes(registry) + e.stake
  {
    var n := |registry| - 1;
    if i < n {
      StakesUpdate(registry[..n], i, e);
      assert registry[i := e][..n] == registry[..n][i := e];
    } else {
      assert registry[i := e][..n] == registry[..n];
    }
  }

  lemma {:induction false} ChallengeRemoved(m: map<Id, Challenge>, c: Id)
    requires c in m
    ensures MapSum(ChallengeStakes(m)) == m[c].stake + MapSum(ChallengeStakes(m - {c}))
  {
    SumRemove(ChallengeStakes(m), c);
    assert ChallengeStakes(m) - {c} == ChallengeStakes(m - {c});
  }

  lemma {:induction false} BondRemoved(m: map<Id, Bond>, t: Id)
    requires t in m
    ensures MapSum(BondAmounts(m)) == m[t].amount + MapSum(BondAmounts(m - {t}))
  {
    SumRemove(BondAmounts(m), t);
    assert BondAmounts(m) - {t} == BondAmounts(m - {t});
  }

  lemma {:induction false} SettleTotal(l: Ledger, cid: Id)
    requires cid in l.challenges
    ensures Total(Settle(l, cid)) <= Total(l)
  {
    var c, i := l.challenges[cid], Find(l.registry, l.challenges[cid].dataId);
    ChallengeRemoved(l.challenges, cid);
    if i < |l.registry| {
      var e := l.registry[i];
      if Upheld(c) {
        StakesUpdate(l.registry, i, e.(active := false, stake := 0));
        CreditSum(l.balances, Pay(c.challenger, e.stake + c.stake));
      } else {
        CreditSum(l.balances, Pay(e.owner, c.stake));
      }
    }
  }

  lemma {:induction false} SettleAllTotal(l: Ledger, cids: seq<Id>, height: nat)
    ensures Total(SettleAll(l, cids, height)) <= Total(l)
    decreases |cids|
  {
    if cids != [] {
      SettleAllTotal(l, cids[..|cids| - 1], height);
      var s, cid := SettleAll(l, cids[..|cids| - 1], height), cids[|cids| - 1];
      if cid in s.challenges { SettleTotal(s, cid); }
    }
  }

  lemma {:induction false} ReleaseTotal(l: Ledger, t: Id)
    requires t in l.bonds
    ensures Total(Release(l, t)) == Total(l)
  {
    BondRemoved(l.bonds, t);
    CreditSum(l.balances, Pay(l.bonds[t].miner, l.bonds[t].amount));
  }

  lemma {:induction false} ReleaseAllTotal(l: Ledger, tids: seq<Id>, height: nat)
    ensures Total(ReleaseAll(l, tids, height)) == Total(l)
    decreases |tids|
  {
    if tids != [] {
      ReleaseAllTotal(l, tids[..|tids| - 1], height);
      var s, t := ReleaseAll(l, tids[..|tids| - 1], height), tids[|tids| - 1];
      if t in s.bonds { ReleaseTotal(s, t); }
    }
  }

  lemma {:induction false} SketchedStakes(registry: seq<Entry>, idx: seq<nat>, sk: seq<int>, n: nat)
    requires n > 0 && forall k :: 0 <= k < |idx| ==> idx[k] < |registry|
    ensures Stakes(Sketched(registry, idx, sk, n)) == Stakes(registry)
    decreases |idx|
  {
    if idx != [] {
      var init, i := idx[..|idx| - 1], idx[|idx| - 1];
      SketchedStakes(registry, init, sk, n);
      var r := Sketched(registry, init, sk, n);
      StakesUpdate(r, i, Sketched(registry, idx, sk, n)[i]);
    }
  }

  lemma {:induction false} SketchesStakes(registry: seq<Entry>, deltas: seq<DeltaTx>)
    ensures Stakes(Sketches(registry, deltas)) == Stakes(registry)
    decreases |deltas|
  {
    if deltas != [] {
      var init, d := deltas[..|deltas| - 1], deltas[|deltas| - 1];
      SketchesStakes(registry, init);
      var r := Sketches(registry, init);
      var idx := BackingAll(r, d.refs);
      if idx != [] { SketchedStakes(r, idx, d.sketch, |idx|); }
    }
  }

  lemma {:induction false} CutsBound(total: nat)
    ensures Cut(total, SHARE_MINERS) + Cut(total, SHARE_PROPOSER) + Cut(total, SHARE_DATA) <= total
  {
  }

  lemma {:induction false} PaySumAppend(a: seq<Pay>, b: seq<Pay>)
    ensures PaySum(a + b) == PaySum(a) + PaySum(b)
    decreases |b|
  {
    if b == [] {
      assert a + b == a;
    } else {
      var n := |b| - 1;
      PaySumAppend(a, b[..n]);
      assert (a + b)[..|a + b| - 1] == a + b[..n];
    }
  }

  lemma {:induction false} PaySumOne(p: Pay)
    ensures PaySum([p]) == p.amount
  {
    assert [p][..0] == [];
  }

  lemma {:induction false} ProposerBound(proposer: Option<Addr>, cut: nat)
    ensures PaySum(ProposerPays(proposer, cut)) <= cut
  {
    if proposer.Some? { PaySumOne(Pay(proposer.value, cut)); }
  }

  lemma {:induction false} OwnerBound(
    registry: seq<Entry>, credits: map<Content, nat>, contributor: Option<Addr>, pool: nat)
    ensures PaySum(OwnerPays(registry, credits, contributor, pool)) <= pool
  {
    DataPaysBound(registry, credits, pool);
    ProposerBound(contributor, pool);
  }

  /** No payout exceeds its pool. */
  ghost predicate Bounded(p: Payees) {
    && (forall pool: nat :: PaySum(p.miners(pool)) <= pool)
    && (forall cut: nat :: PaySum(p.proposer(cut)) <= cut)
    && (forall pool: nat :: PaySum(p.owners(pool)) <= pool)
  }

  lemma {:induction false} PayeesBounded(
    registry: seq<Entry>, miners: seq<Addr>, weights: map<Addr, nat>, credits: map<Content, nat>,
    proposer: Option<Addr>, contributor: Option<Addr>)
    ensures Bounded(PayeesOf(registry, miners, weights, credits, proposer, contributor))
  {
    var p := PayeesOf(registry, miners, weights, credits, proposer, contributor);
    forall pool: nat ensures PaySum(p.miners(pool)) <= pool {
      if miners != [] { MinerPaysBound(miners, weights, pool); }
    }
    forall cut: nat ensures PaySum(p.proposer(cut)) <= cut { ProposerBound(proposer, cut); }
    forall pool: nat ensures PaySum(p.owners(pool)) <= pool { OwnerBound(registry, credits, contributor, pool); }
  }

  lemma {:induction false} PayOutTotal(l: Ledger, pays: seq<Pay>, train: nat, data: nat, minted: nat)
    requires train <= l.feeTrain && data <= l.feeData && PaySum(pays) <= minted + train + data
    ensures Total(PayOut(l, pays, train, data)) <= Total(l) + minted
  {
    CreditAllSum(l.balances, pays);
  }

  lemma {:induction false} CutsTotal(l: Ledger, minersCut: nat, proposerCut: nat, dataCut: nat, p: Payees)
    requires Bounded(p)
    ensures Total(PayCuts(l, minersCut, proposerCut, dataCut, p)) <= Total(l) + minersCut + proposerCut + dataCut
  {
    var train := if p.anyMiner then l.feeTrain else 0;
    var data := if p.anyOwner then l.feeData else 0;
    var a, b, c := p.miners(minersCut + train), p.proposer(proposerCut), p.owners(dataCut + data);
    PaySumAppend(a, b);
    PaySumAppend(a + b, c);
    PayOutTotal(l, a + b + c, train, data, minersCut + proposerCut + dataCut);
  }

  /** The reward mints at most the emission. */
  lemma {:induction false} RewardTotal(l: Ledger, height: nat, p: Payees)
    requires Bounded(p)
    ensures Total(Reward(l, height, p)) <= Total(l) + Emission(height)
  {
    var total := Emission(height);
    CutsBound(total);
    CutsTotal(l, Cut(total, SHARE_MINERS), Cut(total, SHARE_PROPOSER), Cut(total, SHARE_DATA), p);
  }

  /** Locking a bond conserves, unless it overwrites an equal transaction id. */
  lemma {:induction false} LockBondTotal(l: Ledger, tid: Id, miner: Addr, amount: int, height: nat)
    ensures LockBond(l, tid, miner, amount, height).Some? ==>
      Total(LockBond(l, tid, miner, amount, height).value) <= Total(l)
    ensures LockBond(l, tid, miner, amount, height).Some? && tid !in l.bonds ==>
      Total(LockBond(l, tid, miner, amount, height).value) == Total(l)
  {
    if amount > 0 && Get(l.balances, miner) >= amount {
      var bond := Bond(miner, amount, height + BOND_WINDOW);
      SumUpdate(l.balances, miner, Get(l.balances, miner) - amount);
      SumUpdate(BondAmounts(l.bonds), tid, amount);
      assert BondAmounts(l.bonds[tid := bond]) == BondAmounts(l.bonds)[tid := amount];
    }
  }

  lemma {:induction false} LockBondsTotal(l: Ledger, deltas: seq<DeltaTx>, height: nat)
    ensures LockBonds(l, deltas, height).Some? ==> Total(LockBonds(l, deltas, height).value) <= Total(l)
    decreases |deltas|
  {
    if deltas != [] {
      var init, d := deltas[..|deltas| - 1], deltas[|deltas| - 1];
      LockBondsTotal(l, init, height);
      var r := LockBonds(l, init, height);
      if r.Some? { LockBondTotal(r.value, d.txid, d.miner, d.bond, height); }
    }
  }

  lemma {:induction false} DebitTotal(l: Ledger, a: Addr, amount: nat)
    requires amount <= Get(l.balances, a)
    ensures Total(Debit(l, a, amount)) + amount == Total(l)
    ensures MapSum(Debit(l, a, amount).balances) + amount == MapSum(l.balances)
  {
    SumUpdate(l.balances, a, Get(l.balances, a) - amount);
  }

  lemma {:induction false} StakesAppend(registry: seq<Entry>, e: Entry)
    ensures Stakes(registry + [e]) == Stakes(registry) + e.stake
  {
    assert (registry + [e])[..|registry|] == registry;
  }

  lemma {:induction false} TransferTotal(l: Ledger, tx: Tx)
    requires tx.Transfer? && Transferred(l, tx).Some?
    ensures Total(Transferred(l, tx).value) == Total(l)
  {
    DebitTotal(l, tx.src, tx.amount);
    CreditSum(Debit(l, tx.src, tx.amount).balances, Pay(tx.recipient, tx.amount));
  }

  lemma {:induction false} SubmitTotal(l: Ledger, tx: Tx)
    requires tx.Submit? && Submitted(l, tx).Some?
    ensures Total(Submitted(l, tx).value) == Total(l)
  {
    DebitTotal(l, tx.src, tx.stake);
    StakesAppend(l.registry, Entry(tx.txid, tx.src, tx.dataHash, tx.stake, tx.stake, true, []));
  }

  lemma {:induction false} ContestTotal(l: Ledger, tx: Tx, height: nat)
    requires tx.Contest? && Contested(l, tx, height).Some?
    ensures Total(Contested(l, tx, height).value) <= Total(l)
    ensures tx.txid !in l.challenges ==> Total(Contested(l, tx, height).value) == Total(l)
  {
    var c := Challenge(tx.dataId, tx.src, tx.stake, height + CHALLENGE_WINDOW, [], []);
    DebitTotal(l, tx.src, tx.stake);
    SumUpdate(ChallengeStakes(l.challenges), tx.txid, tx.stake);
    assert ChallengeStakes(l.challenges[tx.txid := c]) == ChallengeStakes(l.challenges)[tx.txid := tx.stake];
  }

  lemma {:induction false} VoteTotal(l: Ledger, tx: Tx, jurors: set<Addr>)
    requires tx.Vote? && Voted(l, tx, jurors).Some?
    ensures Total(Voted(l, tx, jurors).value) == Total(l)
  {
    assert ChallengeStakes(Voted(l, tx, jurors).value.challenges) == ChallengeStakes(l.challenges);
  }

  lemma {:induction false} AlignedBound(registry: seq<Entry>, answer: seq<int>, cut: nat)
    ensures AlignedPays(registry, answer, cut).Some? ==> PaySum(AlignedPays(registry, answer, cut).value) <= cut
  {
    var m := Alignments(registry, answer);
    var keys := Ascending(m.Keys);
    if SumSeq(WeightsOf(keys, m)) > 0 { SharesBound(keys, WeightsOf(keys, m), cut); }
  }

  /** A fee splits exactly, up to the dust of an aligned data slice. */
  lemma {:induction false} ReceiptTotal(l: Ledger, tx: Tx)
    requires tx.Receipt? && Served(l, tx).Some?
    ensures Total(Served(l, tx).value) <= Total(l)
    ensures AlignedPays(l.registry, tx.answer, Cut(tx.fee, FEE_SHARE_DATA)).None? ==>
      Total(Served(l, tx).value) == Total(l)
  {
    ServeTotal(l, tx.src, tx.server, tx.fee, Cut(tx.fee, FEE_SHARE_DATA), Cut(tx.fee, FEE_SHARE_TRAIN), tx.answer);
  }

  lemma {:induction false} ServeTotal(
    l: Ledger, src: Addr, server: Addr, fee: nat, dataCut: nat, trainCut: nat, answer: seq<int>)
    requires fee <= Get(l.balances, src) && dataCut + trainCut <= fee
    ensures Total(Serve(l, src, server, fee, dataCut, trainCut, answer)) <= Total(l)
    ensures AlignedPays(l.registry, answer, dataCut).None? ==>
      Total(Serve(l, src, server, fee, dataCut, trainCut, answer)) == Total(l)
  {
    var d := Debit(l, src, fee);
    var pay := Pay(server, fee - dataCut - trainCut);
    DebitTotal(l, src, fee);
    CreditSum(d.balances, pay);
    SliceTotal(l.registry, answer, dataCut, Credit(d.balances, pay));
  }

  lemma {:induction false} SliceTotal(registry: seq<Entry>, answer: seq<int>, cut: nat, b: map<Addr, nat>)
    ensures AlignedPays(registry, answer, cut).Some? ==>
      MapSum(CreditAll(b, AlignedPays(registry, answer, cut).value)) <= MapSum(b) + cut
  {
    AlignedBound(registry, answer, cut);
    var pays := AlignedPays(registry, answer, cut);
    if pays.Some? { CreditAllSum(b, pays.value); }
  }

  lemma {:induction false} TxTotal(l: Ledger, tx: Tx, height: nat, jurors: set<Addr>)
    ensures ApplyTx(l, tx, height, jurors).Some? ==> Total(ApplyTx(l, tx, height, jurors).value) <= Total(l)
  {
    if ApplyTx(l, tx, height, jurors).Some? {
      match tx
      case Transfer(_, _, _, _, _, _) => TransferTotal(l, tx);
      case Submit(_, _, _, _, _, _, _, _) => SubmitTotal(l, tx);
      case Contest(_, _, _, _, _, _) => ContestTotal(l, tx, height);
      case Vote(_, _, _, _, _, _) => VoteTotal(l, tx, jurors);
      case Receipt(_, _, _, _, _, _, _) => ReceiptTotal(l, tx);
    }
  }

  lemma {:induction false} TxsTotal(l: Ledger, txs: seq<Tx>, height: nat, jurors: set<Addr>)
    ensures ApplyTxs(l, txs, height, jurors).Some? ==> Total(ApplyTxs(l, txs, height, jurors).value) <= Total(l)
    decreases |txs|
  {
    if txs != [] {
      TxsTotal(l, txs[..|txs| - 1], height, jurors);
      var r := ApplyTxs(l, txs[..|txs| - 1], height, jurors);
      if r.Some? { TxTotal(r.value, txs[|txs| - 1], height, jurors); }
    }
  }

  lemma {:induction false} PayingTotal(l: Ledger, b: BlockBody, height: nat)
    ensures Paying(l, b, height).Some? ==> Total(Paying(l, b, height).value) <= Total(l) + Emission(height)
  {
    var s1 := ResolveChallenges(l, height);
    var s := ResolveBonds(s1, height);
    SettleAllTotal(l, Ascending(l.challenges.Keys), height);
    ReleaseAllTotal(s1, Ascending(s1.bonds.Keys), height);
    SketchesStakes(s.registry, b.deltas);
    var r := s.(registry := Sketches(s.registry, b.deltas));
    PayeesBounded(r.registry, Miners(b.deltas), MinerWeights(b.deltas, b.deltas),
                  DataCredits(r.registry, b.deltas, b.deltas), b.proposer, b.contributor);
    RewardTotal(r, height, BlockPayees(r.registry, b));
  }

  /** A block adds at most its emission. */
  lemma {:induction false} BlockTotal(l: Ledger, b: BlockBody, height: nat)
    ensures ApplyBlock(l, b, height).Some? ==> Total(ApplyBlock(l, b, height).value) <= Total(l) + Emission(height)
  {
    PayingTotal(l, b, height);
    var p := Paying(l, b, height);
    if p.Some? {
      LockBondsTotal(p.value, b.deltas, height);
      var q := LockBonds(p.value, b.deltas, height);
      if q.Some? { TxsTotal(q.value, Canonical(b.txs), height, b.jurors); }
    }
  }

  /** Emission of the first n blocks. */
  function Minted(n: nat): nat { if n == 0 then 0 else Minted(n - 1) + Emission(n) }

  lemma {:induction false} GenesisTotal(contributor: Option<Addr>)
    ensures Total(GenesisLedger(contributor)) == 0
  {
    var g := GenesisLedger(contributor);
    assert ChallengeStakes(g.challenges) == map[] && BondAmounts(g.bonds) == map[];
    if contributor.Some? {
      StakesAppend([], g.registry[0]);
      assert [] + [g.registry[0]] == g.registry;
    }
  }

  lemma {:induction false} NextTotal(r: Option<Ledger>, b: BlockBody, height: nat, minted: nat)
    requires r.Some? ==> Total(r.value) <= minted
    ensures Next(r, b, height).Some? ==> Total(Next(r, b, height).value) <= minted + Emission(height)
  {
    if r.Some? { BlockTotal(r.value, b, height); }
  }

  /** Over every run, everything the ledger holds was minted by the schedule. */
  lemma {:induction false} RunConserves(contributor: Option<Addr>, blocks: seq<BlockBody>)
    ensures Run(contributor, blocks).Some? ==> Total(Run(contributor, blocks).value) <= Minted(|blocks|)
    decreases |blocks|
  {
    if blocks == [] {
      GenesisTotal(contributor);
    } else {
      var n := |blocks|;
      RunConserves(contributor, blocks[..n - 1]);
      NextTotal(Run(contributor, blocks[..n - 1]), blocks[n - 1], n, Minted(n - 1));
    }
  }
}
