/** Who a block reward pays: proportional shares, and nothing burned but division dust. */
module PayoutLaw {
  import opened Wrappers
  import opened Sums
  import opened Ordering
  import opened Token
  import opened LedgerConservation

  // ---- per account ----

  /** What a list of payouts gives one account. */
  ghost function PaidTo(pays: seq<Pay>, a: Addr): nat {
    if pays == [] then 0
    else PaidTo(pays[..|pays| - 1], a) + if pays[|pays| - 1].who == a then pays[|pays| - 1].amount else 0
  }

  /** Credits reach exactly the accounts they name. */
  lemma {:induction false} CreditedAccount(b: map<Addr, nat>, pays: seq<Pay>, a: Addr)
    ensures Get(CreditAll(b, pays), a) == Get(b, a) + PaidTo(pays, a)
    decreases |pays|
  {
    if pays != [] { CreditedAccount(b, pays[..|pays| - 1], a); }
  }

  lemma {:induction false} PaidToNobody(pays: seq<Pay>, a: Addr)
    requires forall i :: 0 <= i < |pays| ==> pays[i].who != a
    ensures PaidTo(pays, a) == 0
    decreases |pays|
  {
    if pays != [] { PaidToNobody(pays[..|pays| - 1], a); }
  }

  /** A list that names the account once. */
  lemma {:induction false} PaidToOnce(pays: seq<Pay>, k: nat)
    requires k < |pays| && forall i :: 0 <= i < |pays| && i != k ==> pays[i].who != pays[k].who
    ensures PaidTo(pays, pays[k].who) == pays[k].amount
    decreases |pays|
  {
    var n := |pays| - 1;
    if k == n {
      PaidToNobody(pays[..n], pays[k].who);
    } else {
      PaidToOnce(pays[..n], k);
    }
  }

  /** The total score of the block's distinct miners. */
  ghost function ScoreOfAll(miners: seq<Addr>, weights: map<Addr, nat>): nat {
    SumSeq(WeightsOf(Ascending(set a | a in miners), weights))
  }

  /** With any score committed, a miner is paid pool * score // total, however often it is listed; others nothing. */
  lemma {:induction false} MinerShare(miners: seq<Addr>, weights: map<Addr, nat>, pool: nat, a: Addr)
    requires miners != [] && ScoreOfAll(miners, weights) > 0
    ensures PaidTo(MinerPays(miners, weights, pool), a)
      == if a in miners then pool * Get(weights, a) / ScoreOfAll(miners, weights) else 0
  {
    var keys := Ascending(set m | m in miners);
    var ws := WeightsOf(keys, weights);
    var pays := Shares(keys, ws, pool, SumSeq(ws));
    AscendingLists(set m | m in miners);
    if a in miners {
      assert a in keys;
      var k :| 0 <= k < |keys| && keys[k] == a;
      assert forall i :: 0 <= i < |pays| && i != k ==> keys[i] < keys[k] || keys[k] < keys[i];
      PaidToOnce(pays, k);
      ShareIsQuotient(pool, ws[k], SumSeq(ws));
    } else {
      PaidToNobody(pays, a);
    }
  }

  // ---- the dust ----

  lemma {:induction false} NextShare(total: nat, pool: nat, w: nat)
    requires total > 0
    ensures pool * w <= total * Quotient(Product(pool, w), total) + total
  {
    ProductIs(pool, w);
    QuotientIs(pool * w, total);
    QuotientLow(pool * w, total);
  }

  lemma {:induction false} QuotientLow(x: nat, n: nat)
    requires n > 0
    ensures x < n * Quotient(x, n) + n
  {
    if x >= n {
      QuotientLow(x - n, n);
      assert n * (1 + Quotient(x - n, n)) == n + n * Quotient(x - n, n);
    }
  }

  lemma {:induction false} Accumulate(total: nat, paid: nat, n: nat, last: nat, pool: nat, sum: nat, w: nat)
    requires pool * sum <= total * (paid + n) && pool * w <= total * last + total
    ensures pool * (sum + w) <= total * (paid + last + (n + 1))
  {
    assert pool * (sum + w) == pool * sum + pool * w;
    assert total * (paid + last + (n + 1)) == total * (paid + n) + (total * last + total);
  }

  lemma {:induction false} SharesScaledLow(who: seq<Addr>, ws: seq<nat>, pool: nat, total: nat)
    requires |who| == |ws| && total > 0
    ensures pool * SumSeq(ws) <= total * (PaySum(Shares(who, ws, pool, total)) + |who|)
    decreases |who|
  {
    var n := |who|;
    if n > 0 {
      var pays := Shares(who, ws, pool, total);
      SharesScaledLow(who[..n - 1], ws[..n - 1], pool, total);
      assert pays[..n - 1] == Shares(who[..n - 1], ws[..n - 1], pool, total);
      NextShare(total, pool, ws[n - 1]);
      Accumulate(total, PaySum(pays[..n - 1]), n - 1, pays[n - 1].amount, pool, SumSeq(ws[..n - 1]), ws[n - 1]);
    }
  }

  /** A proportional split leaves at most one grain per payee. */
  lemma {:induction false} SharesTight(who: seq<Addr>, ws: seq<nat>, pool: nat)
    requires |who| == |ws| && SumSeq(ws) > 0
    ensures pool <= PaySum(Shares(who, ws, pool, SumSeq(ws))) + |who|
  {
    SharesScaledLow(who, ws, pool, SumSeq(ws));
    CancelFactor(SumSeq(ws), pool, PaySum(Shares(who, ws, pool, SumSeq(ws))) + |who|);
  }

  lemma {:induction false} EqualTight(who: seq<Addr>, pool: nat)
    requires who != []
    ensures pool <= PaySum(EqualShares(who, pool)) + |who|
  {
    ConstantSum(EqualShares(who, pool), Quotient(pool, |who|));
    QuotientLow(pool, |who|);
  }

  lemma {:induction false} MinerPaysTight(miners: seq<Addr>, weights: map<Addr, nat>, pool: nat)
    requires miners != []
    ensures pool <= PaySum(MinerPays(miners, weights, pool)) + |MinerPays(miners, weights, pool)|
  {
    var keys := Ascending(set a | a in miners);
    var ws := WeightsOf(keys, weights);
    if SumSeq(ws) > 0 { SharesTight(keys, ws, pool); } else { EqualTight(miners, pool); }
  }

  lemma {:induction false} SumAbove(ws: seq<nat>, i: nat)
    requires i < |ws|
    ensures SumSeq(ws) >= ws[i]
    decreases |ws|
  {
    if i < |ws| - 1 { SumAbove(ws[..|ws| - 1], i); }
  }

  lemma {:induction false} DataPaysTight(registry: seq<Entry>, credits: map<Content, nat>, pool: nat)
    requires Paid(registry, credits) != {}
    ensures pool <= PaySum(DataPays(registry, credits, pool)) + |DataPays(registry, credits, pool)|
  {
    var keys := Ascending(Paid(registry, credits));
    AscendingLists(Paid(registry, credits));
    var ws := WeightsOf(keys, credits);
    assert keys[0] in Paid(registry, credits);
    SumAbove(ws, 0);
    SharesTight(Owners(registry, keys), ws, pool);
  }

  /** Everyone is there to be paid, and each pool is paid out up to one grain per payee. */
  ghost predicate Tight(p: Payees) {
    && p.anyMiner && p.anyOwner
    && (forall pool: nat :: pool <= PaySum(p.miners(pool)) + |p.miners(pool)|)
    && (forall cut: nat :: cut <= PaySum(p.proposer(cut)) + |p.proposer(cut)|)
    && (forall pool: nat :: pool <= PaySum(p.owners(pool)) + |p.owners(pool)|)
  }

  lemma {:induction false} PayeesTight(
    registry: seq<Entry>, miners: seq<Addr>, weights: map<Addr, nat>, credits: map<Content, nat>,
    proposer: Option<Addr>, contributor: Option<Addr>)
    requires miners != [] && proposer.Some? && Paid(registry, credits) != {}
    ensures Tight(PayeesOf(registry, miners, weights, credits, proposer, contributor))
  {
    var p := PayeesOf(registry, miners, weights, credits, proposer, contributor);
    forall pool: nat ensures pool <= PaySum(p.miners(pool)) + |p.miners(pool)| {
      MinerPaysTight(miners, weights, pool);
    }
    forall cut: nat ensures cut <= PaySum(p.proposer(cut)) + |p.proposer(cut)| {
      PaySumOne(Pay(proposer.value, cut));
    }
    forall pool: nat ensures pool <= PaySum(p.owners(pool)) + |p.owners(pool)| {
      DataPaysTight(registry, credits, pool);
    }
  }

  /** The payouts of the three cuts, with both fee pools drained. */
  ghost function Payments(l: Ledger, minersCut: nat, proposerCut: nat, dataCut: nat, p: Payees): seq<Pay> {
    p.miners(minersCut + l.feeTrain) + p.proposer(proposerCut) + p.owners(dataCut + l.feeData)
  }

  lemma {:induction false} CutsTight(l: Ledger, minersCut: nat, proposerCut: nat, dataCut: nat, p: Payees)
    requires Tight(p)
    ensures Total(l) + minersCut + proposerCut + dataCut
      <= Total(PayCuts(l, minersCut, proposerCut, dataCut, p)) + |Payments(l, minersCut, proposerCut, dataCut, p)|
    ensures PayCuts(l, minersCut, proposerCut, dataCut, p).feeTrain == 0
    ensures PayCuts(l, minersCut, proposerCut, dataCut, p).feeData == 0
  {
    var a, b, c := p.miners(minersCut + l.feeTrain), p.proposer(proposerCut), p.owners(dataCut + l.feeData);
    ThreeTight(a, b, c, minersCut + l.feeTrain, proposerCut, dataCut + l.feeData);
    CreditAllSum(l.balances, a + b + c);
  }

  lemma {:induction false} ThreeTight(a: seq<Pay>, b: seq<Pay>, c: seq<Pay>, x: nat, y: nat, z: nat)
    requires x <= PaySum(a) + |a| && y <= PaySum(b) + |b| && z <= PaySum(c) + |c|
    ensures x + y + z <= PaySum(a + b + c) + |a + b + c|
  {
    PaySumAppend(a, b);
    PaySumAppend(a + b, c);
  }

  lemma {:induction false} CutsAlmost(total: nat)
    ensures total <= Cut(total, SHARE_MINERS) + Cut(total, SHARE_PROPOSER) + Cut(total, SHARE_DATA) + 2
  {
  }

  lemma {:induction false} TightReward(l: Ledger, height: nat, p: Payees)
    requires Tight(p) && Emission(height) > 0
    ensures var total := Emission(height); var r := Reward(l, height, p);
      && r.feeTrain == 0 && r.feeData == 0
      && Total(l) + total <= Total(r) + 2
           + |Payments(l, Cut(total, SHARE_MINERS), Cut(total, SHARE_PROPOSER), Cut(total, SHARE_DATA), p)|
  {
    var total := Emission(height);
    CutsAlmost(total);
    CutsTight(l, Cut(total, SHARE_MINERS), Cut(total, SHARE_PROPOSER), Cut(total, SHARE_DATA), p);
  }

  lemma {:induction false} EmissionPositive(height: nat)
    requires height > 0
    ensures Emission(height) > 0
  {
  }

  /**
   * The reward of a block with deltas, a proposer and paid data: both fee pools
   * are drained, and the whole emission is minted but for at most one grain per
   * payout and two for the cuts.
   */
  lemma {:induction false} RewardTight(l: Ledger, height: nat, b: BlockBody)
    requires height > 0 && b.deltas != [] && b.proposer.Some?
    requires Paid(l.registry, DataCredits(l.registry, b.deltas, b.deltas)) != {}
    ensures var total, p := Emission(height), BlockPayees(l.registry, b); var r := Reward(l, height, p);
      && r.feeTrain == 0 && r.feeData == 0
      && Total(l) + total <= Total(r) + 2
           + |Payments(l, Cut(total, SHARE_MINERS), Cut(total, SHARE_PROPOSER), Cut(total, SHARE_DATA), p)|
  {
    EmissionPositive(height);
    PayeesTight(l.registry, Miners(b.deltas), MinerWeights(b.deltas, b.deltas),
                DataCredits(l.registry, b.deltas, b.deltas), b.proposer, b.contributor);
    TightReward(l, height, BlockPayees(l.registry, b));
  }

  lemma {:induction false} SettlementConserves(l: Ledger, cid: Id)
    requires cid in l.challenges && Find(l.registry, l.challenges[cid].dataId) < |l.registry|
    ensures Total(Settle(l, cid)) == Total(l)
  {
    var c, i := l.challenges[cid], Find(l.registry, l.challenges[cid].dataId);
    var e := l.registry[i];
    ChallengeRemoved(l.challenges, cid);
    if Upheld(c) {
      StakesUpdate(l.registry, i, e.(active := false, stake := 0));
      CreditSum(l.balances, Pay(c.challenger, e.stake + c.stake));
    } else {
      CreditSum(l.balances, Pay(e.owner, c.stake));
    }
  }

  /** In a reachable market a settled challenge burns nothing: its stakes change hands. */
  lemma {:induction false} SettlementExact(l: Ledger, cid: Id)
    requires cid in l.challenges && Find(l.registry, l.challenges[cid].dataId) < |l.registry|
    ensures Total(Settle(l, cid)) == Total(l)
    ensures var c, e := l.challenges[cid], l.registry[Find(l.registry, l.challenges[cid].dataId)];
      var gain := if Upheld(c) then e.stake + c.stake else c.stake;
      var winner := if Upheld(c) then c.challenger else e.owner;
      forall a :: Get(Settle(l, cid).balances, a) == Get(l.balances, a) + if a == winner then gain else 0
  {
    SettlementConserves(l, cid);
  }
}
