/** The ledger object of rig/token.py, its fields updated in place, held to the functions of module Token. */
module TokenLedger {
  import opened Wrappers
  import opened Sums
  import opened Ordering
  import T = Token
  import LedgerConservation
  import AccountLaw

  class TokenLedger {
    var balances: map<T.Addr, nat>
    var nonces: map<T.Addr, nat>
    var registry: seq<T.Entry>
    var challenges: map<T.Id, T.Challenge>
    var bonds: map<T.Id, T.Bond>
    var feeData: nat
    var feeTrain: nat

    function View(): T.Ledger
      reads this
    {
      T.Ledger(balances, nonces, registry, challenges, bonds, feeData, feeTrain)
    }

    /** An empty ledger, with the founding corpus as entry zero when there is a contributor. */
    constructor (contributor: Option<T.Addr>)
      ensures View() == T.GenesisLedger(contributor)
    {
      balances, nonces, challenges, bonds, feeData, feeTrain := map[], map[], map[], map[], 0, 0;
      registry := [];
      if contributor.Some? {
        registry := [T.Entry(T.GENESIS_ID, contributor.value, T.GENESIS_DATA, 0, T.GENESIS_DATA_WEIGHT, true, [])];
      }
    }

    constructor Copy(l: TokenLedger)
      ensures View() == old(l.View())
    {
      balances, nonces, registry, challenges := l.balances, l.nonces, l.registry, l.challenges;
      bonds, feeData, feeTrain := l.bonds, l.feeData, l.feeTrain;
    }

    method Credit(who: T.Addr, amount: nat)
      modifies this`balances
      ensures balances == T.Credit(old(balances), T.Pay(who, amount))
    {
      if amount > 0 { balances := balances[who := Get(balances, who) + amount]; }
    }

    method CreditEach(pays: seq<T.Pay>)
      modifies this`balances
      ensures balances == T.CreditAll(old(balances), pays)
    {
      ghost var before := balances;
      for i := 0 to |pays|
        invariant balances == T.CreditAll(before, pays[..i])
      {
        assert pays[..i + 1][..i] == pays[..i];
        Credit(pays[i].who, pays[i].amount);
      }
      assert pays[..|pays|] == pays;
    }

    /** Settle one closed challenge: an upheld one revokes the entry and takes its stake. */
    method SettleOne(cid: T.Id)
      requires cid in challenges
      modifies this`balances, this`registry, this`challenges
      ensures View() == T.Settle(old(View()), cid)
    {
      var c := challenges[cid];
      var i := T.Find(registry, c.dataId);
      if i < |registry| {
        if T.Upheld(c) {
          Credit(c.challenger, registry[i].stake + c.stake);
          registry := registry[i := registry[i].(active := false, stake := 0)];
        } else {
          Credit(registry[i].owner, c.stake);
        }
      }
      challenges := challenges - {cid};
    }

    method ResolveExpiredChallenges(height: nat)
      modifies this`balances, this`registry, this`challenges
      ensures View() == T.ResolveChallenges(old(View()), height)
    {
      ghost var before := View();
      var cids := Ascending(challenges.Keys);
      for i := 0 to |cids|
        invariant View() == T.SettleAll(before, cids[..i], height)
      {
        assert cids[..i + 1][..i] == cids[..i];
        var cid := cids[i];
        if cid in challenges && challenges[cid].expiry <= height { SettleOne(cid); }
      }
      assert cids[..|cids|] == cids;
    }

    method ResolveExpiredBonds(height: nat)
      modifies this`balances, this`bonds
      ensures View() == T.ResolveBonds(old(View()), height)
    {
      ghost var before := View();
      var tids := Ascending(bonds.Keys);
      for i := 0 to |tids|
        invariant View() == T.ReleaseAll(before, tids[..i], height)
      {
        assert tids[..i + 1][..i] == tids[..i];
        var tid := tids[i];
        if tid in bonds && bonds[tid].expiry <= height {
          Credit(bonds[tid].miner, bonds[tid].amount);
          bonds := bonds - {tid};
        }
      }
      assert tids[..|tids|] == tids;
    }

    static method SumWeights(ws: seq<nat>) returns (total: nat)
      ensures total == T.SumSeq(ws)
    {
      total := 0;
      for i := 0 to |ws|
        invariant total == T.SumSeq(ws[..i])
      {
        assert ws[..i + 1][..i] == ws[..i];
        total := total + ws[i];
      }
      assert ws[..|ws|] == ws;
    }

    /** Credit each payee its proportional part of the pool, rounded down. */
    method CreditShares(who: seq<T.Addr>, ws: seq<nat>, pool: nat, total: nat)
      requires |who| == |ws| && total > 0
      modifies this`balances
      ensures balances == T.CreditAll(old(balances), T.Shares(who, ws, pool, total))
    {
      ghost var before, pays := balances, T.Shares(who, ws, pool, total);
      for i := 0 to |who|
        invariant balances == T.CreditAll(before, pays[..i])
      {
        assert pays[..i + 1][..i] == pays[..i];
        LedgerConservation.ShareIsQuotient(pool, ws[i], total);
        Credit(who[i], pool * ws[i] / total);
      }
      assert pays[..|who|] == pays;
    }

    method CreditEqually(who: seq<T.Addr>, pool: nat)
      requires who != []
      modifies this`balances
      ensures balances == T.CreditAll(old(balances), T.EqualShares(who, pool))
    {
      ghost var before, pays := balances, T.EqualShares(who, pool);
      LedgerConservation.QuotientIs(pool, |who|);
      var each := pool / |who|;
      for i := 0 to |who|
        invariant balances == T.CreditAll(before, pays[..i])
      {
        assert pays[..i + 1][..i] == pays[..i];
        Credit(who[i], each);
      }
      assert pays[..|who|] == pays;
    }

    /** By committed score over the distinct miners, or equally over the listing when no score was committed. */
    method PayMiners(miners: seq<T.Addr>, weights: map<T.Addr, nat>, pool: nat)
      requires miners != []
      modifies this`balances
      ensures balances == T.CreditAll(old(balances), T.MinerPays(miners, weights, pool))
    {
      var keys := Ascending(set a | a in miners);
      var ws := T.WeightsOf(keys, weights);
      var total := SumWeights(ws);
      if total > 0 { CreditShares(keys, ws, pool, total); } else { CreditEqually(miners, pool); }
    }

    method PayOwners(credits: map<T.Content, nat>, contributor: Option<T.Addr>, pool: nat)
      modifies this`balances
      ensures balances == T.CreditAll(old(balances), T.OwnerPays(registry, credits, contributor, pool))
    {
      var paid := T.Paid(registry, credits);
      if paid == {} {
        PayOne(contributor, pool);
        return;
      }
      var keys := Ascending(paid);
      AscendingLists(paid);
      var ws := T.WeightsOf(keys, credits);
      var total := SumWeights(ws);
      if total > 0 { CreditShares(T.Owners(registry, keys), ws, pool, total); }
    }

    method PayOne(who: Option<T.Addr>, amount: nat)
      modifies this`balances
      ensures balances == T.CreditAll(old(balances), T.ProposerPays(who, amount))
    {
      if who.Some? {
        assert [T.Pay(who.value, amount)][..0] == [];
        Credit(who.value, amount);
      }
    }

    static lemma {:induction false} CreditsJoin(b: map<T.Addr, nat>, x: seq<T.Pay>, y: seq<T.Pay>)
      ensures T.CreditAll(T.CreditAll(b, x), y) == T.CreditAll(b, x + y)
    {
      if y == [] {
        assert x + y == x;
      } else {
        CreditsJoin(b, x, y[..|y| - 1]);
        assert (x + y)[..|x + y| - 1] == x + y[..|y| - 1];
      }
    }

    // p pays as the block's lists say; Asked keeps the definitions folded where they are not needed.

    static ghost predicate Asked(pool: nat) { true }

    static ghost predicate PaysMiners(p: T.Payees, miners: seq<T.Addr>, weights: map<T.Addr, nat>) {
      && p.anyMiner == (miners != [])
      && forall pool: nat {:trigger Asked(pool)} :: Asked(pool) ==>
           p.miners(pool) == if miners == [] then [] else T.MinerPays(miners, weights, pool)
    }

    static ghost predicate PaysProposer(p: T.Payees, proposer: Option<T.Addr>) {
      forall cut: nat {:trigger Asked(cut)} :: Asked(cut) ==> p.proposer(cut) == T.ProposerPays(proposer, cut)
    }

    static ghost predicate PaysOwners(
      p: T.Payees, registry: seq<T.Entry>, credits: map<T.Content, nat>, contributor: Option<T.Addr>)
    {
      && p.anyOwner == (T.Paid(registry, credits) != {})
      && forall pool: nat {:trigger Asked(pool)} :: Asked(pool) ==>
           p.owners(pool) == T.OwnerPays(registry, credits, contributor, pool)
    }

    /** The miners' part, with the training fees when there is someone to pay. */
    method DrainToMiners(cut: nat, miners: seq<T.Addr>, weights: map<T.Addr, nat>, ghost p: T.Payees)
      requires PaysMiners(p, miners, weights)
      modifies this`balances, this`feeTrain
      ensures balances == T.CreditAll(old(balances), p.miners(cut + if p.anyMiner then old(feeTrain) else 0))
      ensures feeTrain == if p.anyMiner then 0 else old(feeTrain)
    {
      assert Asked(cut) && Asked(cut + feeTrain);
      if miners != [] {
        PayMiners(miners, weights, cut + feeTrain);
        feeTrain := 0;
      }
    }

    method PayProposer(cut: nat, proposer: Option<T.Addr>, ghost p: T.Payees)
      requires PaysProposer(p, proposer)
      modifies this`balances
      ensures balances == T.CreditAll(old(balances), p.proposer(cut))
    {
      assert Asked(cut);
      PayOne(proposer, cut);
    }

    /** The data part, with the data fees when the block names backed data. */
    method DrainToOwners(cut: nat, credits: map<T.Content, nat>, contributor: Option<T.Addr>, ghost p: T.Payees)
      requires PaysOwners(p, registry, credits, contributor)
      modifies this`balances, this`feeData
      ensures balances == T.CreditAll(old(balances), p.owners(cut + if p.anyOwner then old(feeData) else 0))
      ensures feeData == if p.anyOwner then 0 else old(feeData)
    {
      var pool := cut;
      if T.Paid(registry, credits) != {} {
        pool, feeData := cut + feeData, 0;
      }
      PayOwnersBy(pool, credits, contributor, p);
    }

    method PayOwnersBy(pool: nat, credits: map<T.Content, nat>, contributor: Option<T.Addr>, ghost p: T.Payees)
      requires PaysOwners(p, registry, credits, contributor)
      modifies this`balances
      ensures balances == T.CreditAll(old(balances), p.owners(pool))
    {
      assert Asked(pool);
      PayOwners(credits, contributor, pool);
    }

    /** Pay the three cuts; a fee pool with recipients is drained into its cut, otherwise carried forward. */
    method PayCuts(
      minersCut: nat, proposerCut: nat, dataCut: nat, miners: seq<T.Addr>, weights: map<T.Addr, nat>,
      credits: map<T.Content, nat>, proposer: Option<T.Addr>, contributor: Option<T.Addr>, ghost p: T.Payees)
      requires PaysMiners(p, miners, weights) && PaysProposer(p, proposer)
      requires PaysOwners(p, registry, credits, contributor)
      modifies this`balances, this`feeData, this`feeTrain
      ensures View() == T.PayCuts(old(View()), minersCut, proposerCut, dataCut, p)
    {
      ghost var before := View();
      ghost var a := p.miners(minersCut + if p.anyMiner then feeTrain else 0);
      ghost var b := p.proposer(proposerCut);
      ghost var c := p.owners(dataCut + if p.anyOwner then feeData else 0);
      DrainToMiners(minersCut, miners, weights, p);
      ghost var one := balances;
      PayProposer(proposerCut, proposer, p);
      ghost var two := balances;
      DrainToOwners(dataCut, credits, contributor, p);
      CutsPaid(before, minersCut, proposerCut, dataCut, p, a, b, c, one, two, View());
    }

    /** The three payouts, one after the other, are the payout of the three cuts. */
    static lemma {:induction false} CutsPaid(
      l: T.Ledger, minersCut: nat, proposerCut: nat, dataCut: nat, p: T.Payees,
      a: seq<T.Pay>, b: seq<T.Pay>, c: seq<T.Pay>,
      one: map<T.Addr, nat>, two: map<T.Addr, nat>, r: T.Ledger)
      requires a == p.miners(minersCut + if p.anyMiner then l.feeTrain else 0) && b == p.proposer(proposerCut)
      requires c == p.owners(dataCut + if p.anyOwner then l.feeData else 0)
      requires one == T.CreditAll(l.balances, a) && two == T.CreditAll(one, b)
      requires r == l.(balances := T.CreditAll(two, c),
        feeTrain := if p.anyMiner then 0 else l.feeTrain, feeData := if p.anyOwner then 0 else l.feeData)
      ensures r == T.PayCuts(l, minersCut, proposerCut, dataCut, p)
    {
      CreditsJoin(l.balances, a, b);
      CreditsJoin(l.balances, a + b, c);
    }

    static lemma {:induction false} PayeesPay(
      registry: seq<T.Entry>, miners: seq<T.Addr>, weights: map<T.Addr, nat>, credits: map<T.Content, nat>,
      proposer: Option<T.Addr>, contributor: Option<T.Addr>, p: T.Payees)
      requires p == T.PayeesOf(registry, miners, weights, credits, proposer, contributor)
      ensures PaysMiners(p, miners, weights) && PaysProposer(p, proposer)
      ensures PaysOwners(p, registry, credits, contributor)
    {
    }

    /** Mint and split a block reward. */
    method ApplyReward(
      height: nat, miners: seq<T.Addr>, weights: map<T.Addr, nat>, credits: map<T.Content, nat>,
      proposer: Option<T.Addr>, contributor: Option<T.Addr>)
      modifies this`balances, this`feeData, this`feeTrain
      ensures View() == T.Reward(
        old(View()), height, T.PayeesOf(registry, miners, weights, credits, proposer, contributor))
    {
      ghost var p := T.PayeesOf(registry, miners, weights, credits, proposer, contributor);
      PayeesPay(registry, miners, weights, credits, proposer, contributor, p);
      var total := T.Emission(height);
      if total == 0 && feeTrain == 0 && feeData == 0 { return; }
      PayCuts(T.Cut(total, T.SHARE_MINERS), T.Cut(total, T.SHARE_PROPOSER), T.Cut(total, T.SHARE_DATA),
              miners, weights, credits, proposer, contributor, p);
    }

    /** Lock a delta's bond; false when the miner cannot afford it. */
    method LockBond(tid: T.Id, miner: T.Addr, amount: int, height: nat) returns (ok: bool)
      modifies this`balances, this`bonds
      ensures ok == T.LockBond(old(View()), tid, miner, amount, height).Some?
      ensures View() == if ok then T.LockBond(old(View()), tid, miner, amount, height).value else old(View())
    {
      if amount <= 0 { return true; }
      if Get(balances, miner) < amount { return false; }
      balances := balances[miner := Get(balances, miner) - amount];
      bonds := bonds[tid := T.Bond(miner, amount, height + T.BOND_WINDOW)];
      return true;
    }

    method LockBonds(deltas: seq<T.DeltaTx>, height: nat) returns (ok: bool)
      modifies this`balances, this`bonds
      ensures ok == T.LockBonds(old(View()), deltas, height).Some?
      ensures ok ==> View() == T.LockBonds(old(View()), deltas, height).value
    {
      ghost var before := View();
      for i := 0 to |deltas|
        invariant T.LockBonds(before, deltas[..i], height) == Some(View())
      {
        assert deltas[..i + 1][..i] == deltas[..i];
        ok := LockBond(deltas[i].txid, deltas[i].miner, deltas[i].bond, height);
        if !ok {
          FailsOnward(before, deltas, i + 1, height);
          return;
        }
      }
      assert deltas[..|deltas|] == deltas;
      ok := true;
    }

    static lemma {:induction false} FailsOnward(l: T.Ledger, deltas: seq<T.DeltaTx>, n: nat, height: nat)
      requires n <= |deltas| && T.LockBonds(l, deltas[..n], height).None?
      ensures T.LockBonds(l, deltas, height).None?
      decreases |deltas| - n
    {
      if n < |deltas| {
        assert deltas[..n + 1][..n] == deltas[..n];
        FailsOnward(l, deltas, n + 1, height);
      } else {
        assert deltas[..n] == deltas;
      }
    }

    method Debit(who: T.Addr, amount: nat)
      requires amount <= Get(balances, who)
      modifies this`balances
      ensures View() == T.Debit(old(View()), who, amount)
    {
      balances := balances[who := Get(balances, who) - amount];
    }

    method Transfer(tx: T.Tx) returns (ok: bool)
      requires tx.Transfer?
      modifies this`balances
      ensures ok == T.Transferred(old(View()), tx).Some?
      ensures View() == if ok then T.Transferred(old(View()), tx).value else old(View())
    {
      if tx.amount <= 0 || Get(balances, tx.src) < tx.amount { return false; }
      Debit(tx.src, tx.amount);
      Credit(tx.recipient, tx.amount);
      return true;
    }

    method Submit(tx: T.Tx) returns (ok: bool)
      requires tx.Submit?
      modifies this`balances, this`registry
      ensures ok == T.Submitted(old(View()), tx).Some?
      ensures View() == if ok then T.Submitted(old(View()), tx).value else old(View())
    {
      if tx.stake <= 0 || Get(balances, tx.src) < tx.stake { return false; }
      if T.Find(registry, tx.txid) < |registry| { return false; }
      if !T.WellFormedRoot(tx.daRoot) || tx.size <= 0 { return false; }
      Debit(tx.src, tx.stake);
      registry := registry + [T.Entry(tx.txid, tx.src, tx.dataHash, tx.stake, tx.stake, true, [])];
      return true;
    }

    method Contest(tx: T.Tx, height: nat) returns (ok: bool)
      requires tx.Contest?
      modifies this`balances, this`challenges
      ensures ok == T.Contested(old(View()), tx, height).Some?
      ensures View() == if ok then T.Contested(old(View()), tx, height).value else old(View())
    {
      var i := T.Find(registry, tx.dataId);
      if i == |registry| || !registry[i].active || tx.stake <= 0 { return false; }
      if Get(balances, tx.src) < tx.stake || T.Challenged(challenges, tx.dataId) { return false; }
      Debit(tx.src, tx.stake);
      challenges := challenges[
        tx.txid := T.Challenge(tx.dataId, tx.src, tx.stake, height + T.CHALLENGE_WINDOW, [], [])];
      return true;
    }

    /** A juror votes once; parties to the challenge may not. */
    method Vote(tx: T.Tx, jurors: set<T.Addr>) returns (ok: bool)
      requires tx.Vote?
      modifies this`challenges
      ensures ok == T.Voted(old(View()), tx, jurors).Some?
      ensures View() == if ok then T.Voted(old(View()), tx, jurors).value else old(View())
    {
      if tx.challengeId !in challenges || tx.src !in jurors { return false; }
      var c := challenges[tx.challengeId];
      if tx.src in c.votesFor || tx.src in c.votesAgainst || tx.src == c.challenger { return false; }
      var i := T.Find(registry, c.dataId);
      if i < |registry| && tx.src == registry[i].owner { return false; }
      if tx.support {
        c := c.(votesFor := T.Insert(c.votesFor, tx.src));
      } else {
        c := c.(votesAgainst := T.Insert(c.votesAgainst, tx.src));
      }
      challenges := challenges[tx.challengeId := c];
      return true;
    }

    method Serve(tx: T.Tx) returns (ok: bool)
      requires tx.Receipt?
      modifies this`balances, this`feeData, this`feeTrain
      ensures ok == T.Served(old(View()), tx).Some?
      ensures View() == if ok then T.Served(old(View()), tx).value else old(View())
    {
      if tx.fee <= 0 || Get(balances, tx.src) < tx.fee { return false; }
      var dataCut, trainCut := T.Cut(tx.fee, T.FEE_SHARE_DATA), T.Cut(tx.fee, T.FEE_SHARE_TRAIN);
      Debit(tx.src, tx.fee);
      Credit(tx.server, tx.fee - dataCut - trainCut);
      feeTrain := feeTrain + trainCut;
      var pays := T.AlignedPays(registry, tx.answer, dataCut);
      if pays.Some? {
        CreditEach(pays.value);
      } else {
        feeData := feeData + dataCut;
      }
      return true;
    }

    /** Validate and apply one account transaction; false leaves the ledger as it was. */
    method ApplyTx(tx: T.Tx, height: nat, jurors: set<T.Addr>) returns (ok: bool)
      modifies this
      ensures ok == T.ApplyTx(old(View()), tx, height, jurors).Some?
      ensures View() == if ok then T.ApplyTx(old(View()), tx, height, jurors).value else old(View())
      ensures ok <==> AccountLaw.Allowed(old(View()), tx, jurors)
      ensures ok ==> AccountLaw.Changes(old(View()), tx, height, View())
    {
      AccountLaw.ApplyIs(View(), tx, height, jurors);
      if !tx.signed || tx.nonce != Get(nonces, tx.src) { return false; }
      match tx {
        case Transfer(_, _, _, _, _, _) => ok := Transfer(tx);
        case Submit(_, _, _, _, _, _, _, _) => ok := Submit(tx);
        case Contest(_, _, _, _, _, _) => ok := Contest(tx, height);
        case Vote(_, _, _, _, _, _) => ok := Vote(tx, jurors);
        case Receipt(_, _, _, _, _, _, _) => ok := Serve(tx);
      }
      if ok { nonces := nonces[tx.src := tx.nonce + 1]; }
    }

    method ApplyTxs(txs: seq<T.Tx>, height: nat, jurors: set<T.Addr>) returns (ok: bool)
      modifies this
      ensures ok == T.ApplyTxs(old(View()), txs, height, jurors).Some?
      ensures ok ==> View() == T.ApplyTxs(old(View()), txs, height, jurors).value
    {
      ghost var before := View();
      for i := 0 to |txs|
        invariant T.ApplyTxs(before, txs[..i], height, jurors) == Some(View())
      {
        assert txs[..i + 1][..i] == txs[..i];
        ok := ApplyTx(txs[i], height, jurors);
        if !ok {
          TxsFailOnward(before, txs, i + 1, height, jurors);
          return;
        }
      }
      assert txs[..|txs|] == txs;
      ok := true;
    }

    static lemma {:induction false} TxsFailOnward(l: T.Ledger, txs: seq<T.Tx>, n: nat, height: nat, jurors: set<T.Addr>)
      requires n <= |txs| && T.ApplyTxs(l, txs[..n], height, jurors).None?
      ensures T.ApplyTxs(l, txs, height, jurors).None?
      decreases |txs| - n
    {
      if n < |txs| {
        assert txs[..n + 1][..n] == txs[..n];
        TxsFailOnward(l, txs, n + 1, height, jurors);
      } else {
        assert txs[..n] == txs;
      }
    }

    /** Settle, release, check provenance, accrue sketches and pay the reward. */
    method PayBlock(b: T.BlockBody, height: nat) returns (ok: bool)
      modifies this
      ensures ok == T.Paying(old(View()), b, height).Some?
      ensures ok ==> View() == T.Paying(old(View()), b, height).value
    {
      ResolveExpiredChallenges(height);
      ResolveExpiredBonds(height);
      if !T.Provenance(registry, b.deltas) { return false; }
      registry := T.Sketches(registry, b.deltas);
      ApplyReward(height, T.Miners(b.deltas), T.MinerWeights(b.deltas, b.deltas),
                  T.DataCredits(registry, b.deltas, b.deltas), b.proposer, b.contributor);
      return true;
    }

    /** apply_ledger: the block's transition on a copy of the parent ledger, which is left alone. */
    static method ApplyBlock(parent: TokenLedger, b: T.BlockBody, height: nat) returns (r: Option<TokenLedger>)
      ensures r.Some? == T.ApplyBlock(parent.View(), b, height).Some?
      ensures r.Some? ==> fresh(r.value) && r.value.View() == T.ApplyBlock(parent.View(), b, height).value
    {
      var l := new TokenLedger.Copy(parent);
      var ok := l.PayBlock(b, height);
      if !ok { return None; }
      ok := l.LockBonds(b.deltas, height);
      if !ok { return None; }
      ok := l.ApplyTxs(T.Canonical(b.txs), height, b.jurors);
      if !ok { return None; }
      return Some(l);
    }
  }
}
