/**
 * The token state of rig/token.py and its per-block transition (apply_ledger of
 * rig/blockchain.py) as functions on values. Accounts, content hashes and
 * transaction ids are numbers ordered as their hex strings are; a wallet's
 * public key stands for its address.
 */
module Token {
  import opened Wrappers
  import opened Sums
  import opened Ordering

  type Addr = nat
  type Id = nat
  type Content = nat

  const GRAIN: nat := 1_000_000_000
  const BASE_REWARD: nat := 50 * GRAIN
  const HALVING_BLOCKS: nat := 1_000_000
  const TAIL_REWARD: nat := 97_656_250
  const SHARE_MINERS: nat := 7_000
  const SHARE_PROPOSER: nat := 1_000
  const SHARE_DATA: nat := 2_000
  const FEE_SHARE_DATA: nat := 2_000
  const FEE_SHARE_TRAIN: nat := 2_000
  const CHALLENGE_WINDOW: nat := 20
  const CHALLENGE_QUORUM: nat := 3
  const BOND_WINDOW: nat := 20
  const GENESIS_DATA_WEIGHT: nat := 1_000_000
  const GENESIS_ID: Id := 0
  const GENESIS_DATA: Content := 0
  const I64_MAX: int := 0x7FFF_FFFF_FFFF_FFFF

  datatype Entry = Entry(
    id: Id, owner: Addr, dataHash: Content, stake: nat, weight: nat, active: bool, sketch: seq<int>)
  datatype Challenge = Challenge(
    dataId: Id, challenger: Addr, stake: nat, expiry: nat, votesFor: seq<Addr>, votesAgainst: seq<Addr>)
  datatype Bond = Bond(miner: Addr, amount: nat, expiry: nat)

  /** registry is in insertion order, as the dictionary iterates. */
  datatype Ledger = Ledger(
    balances: map<Addr, nat>, nonces: map<Addr, nat>, registry: seq<Entry>,
    challenges: map<Id, Challenge>, bonds: map<Id, Bond>, feeData: nat, feeTrain: nat)

  /** signed: the signature verifies. */
  datatype Tx =
    | Transfer(txid: Id, src: Addr, nonce: int, signed: bool, recipient: Addr, amount: int)
    | Submit(txid: Id, src: Addr, nonce: int, signed: bool, dataHash: Content, size: int, stake: int, daRoot: string)
    | Contest(txid: Id, src: Addr, nonce: int, signed: bool, dataId: Id, stake: int)
    | Vote(txid: Id, src: Addr, nonce: int, signed: bool, challengeId: Id, support: bool)
    | Receipt(txid: Id, src: Addr, nonce: int, signed: bool, server: Addr, fee: int, answer: seq<int>)

  /** What the ledger reads of a training delta. */
  datatype DeltaTx = DeltaTx(txid: Id, miner: Addr, refs: seq<Content>, bond: int, score: nat, sketch: seq<int>)

  datatype BlockBody = BlockBody(
    deltas: seq<DeltaTx>, txs: seq<Tx>, proposer: Option<Addr>, contributor: Option<Addr>, jurors: set<Addr>)

  // ---- emission ----

  /** BASE_REWARD >> n. */
  function Epoch(n: nat): nat { if n == 0 then BASE_REWARD else Epoch(n - 1) / 2 }

  function Min(a: nat, b: nat): nat { if a <= b then a else b }
  function Max(a: nat, b: nat): nat { if a >= b then a else b }

  function Emission(height: nat): nat {
    if height < 1 then 0 else Max(Epoch(Min((height - 1) / HALVING_BLOCKS, 62)), TAIL_REWARD)
  }

  // ---- credits ----

  datatype Pay = Pay(who: Addr, amount: nat)

  function Credit(b: map<Addr, nat>, p: Pay): map<Addr, nat> {
    if p.amount > 0 then b[p.who := Get(b, p.who) + p.amount] else b
  }

  function CreditAll(b: map<Addr, nat>, pays: seq<Pay>): map<Addr, nat> {
    if pays == [] then b else Credit(CreditAll(b, pays[..|pays| - 1]), pays[|pays| - 1])
  }

  function SumSeq(s: seq<nat>): nat { if s == [] then 0 else SumSeq(s[..|s| - 1]) + s[|s| - 1] }

  /** p * w, counted up (ShareIsQuotient in module LedgerConservation). */
  function Product(p: nat, w: nat): nat { if w == 0 then 0 else p + Product(p, w - 1) }

  /** x // n, counted up. */
  function Quotient(x: nat, n: nat): nat
    requires n > 0
  {
    if x < n then 0 else 1 + Quotient(x - n, n)
  }

  /** pool * w // total to each, remainders burned. */
  function Shares(who: seq<Addr>, ws: seq<nat>, pool: nat, total: nat): (pays: seq<Pay>)
    requires |who| == |ws| && total > 0
    ensures |pays| == |who|
  {
    seq(|who|, i requires 0 <= i < |who| => Pay(who[i], Quotient(Product(pool, ws[i]), total)))
  }

  function EqualShares(who: seq<Addr>, pool: nat): (pays: seq<Pay>)
    requires who != []
    ensures |pays| == |who|
  {
    seq(|who|, i requires 0 <= i < |who| => Pay(who[i], Quotient(pool, |who|)))
  }

  // ---- the registry ----

  /** The index of the entry with this id, or |registry|. */
  function Find(registry: seq<Entry>, id: Id): (i: nat)
    ensures i <= |registry| && (i < |registry| ==> registry[i].id == id)
  {
    if registry == [] then 0 else if registry[0].id == id then 0 else Find(registry[1..], id) + 1
  }

  /** The newest active entry for a content hash, or |registry|. */
  function Backing(registry: seq<Entry>, h: Content): (i: nat)
    ensures i < |registry| ==> registry[i].active && registry[i].dataHash == h
    ensures i <= |registry|
  {
    if registry == [] then 0
    else
      var n := |registry| - 1;
      if registry[n].active && registry[n].dataHash == h then n
      else
        var i := Backing(registry[..n], h);
        if i < n then i else n + 1
  }

  predicate Backed(registry: seq<Entry>, h: Content) { Backing(registry, h) < |registry| }

  // ---- 1. challenges whose window closed ----

  predicate Upheld(c: Challenge) {
    |c.votesFor| >= CHALLENGE_QUORUM && |c.votesFor| > |c.votesAgainst|
  }

  function Settle(l: Ledger, cid: Id): Ledger
    requires cid in l.challenges
  {
    var c := l.challenges[cid];
    var i := Find(l.registry, c.dataId);
    var rest := l.(challenges := l.challenges - {cid});
    if i == |l.registry| then rest
    else if Upheld(c) then
      rest.(registry := l.registry[i := l.registry[i].(active := false, stake := 0)],
            balances := Credit(l.balances, Pay(c.challenger, l.registry[i].stake + c.stake)))
    else rest.(balances := Credit(l.balances, Pay(l.registry[i].owner, c.stake)))
  }

  function SettleAll(l: Ledger, cids: seq<Id>, height: nat): Ledger
    decreases |cids|
  {
    if cids == [] then l
    else
      var s := SettleAll(l, cids[..|cids| - 1], height);
      var cid := cids[|cids| - 1];
      if cid in s.challenges && s.challenges[cid].expiry <= height then Settle(s, cid) else s
  }

  function ResolveChallenges(l: Ledger, height: nat): Ledger { SettleAll(l, Ascending(l.challenges.Keys), height) }

  // ---- 2. bonds that matured ----

  function Release(l: Ledger, tid: Id): Ledger
    requires tid in l.bonds
  {
    l.(bonds := l.bonds - {tid}, balances := Credit(l.balances, Pay(l.bonds[tid].miner, l.bonds[tid].amount)))
  }

  function ReleaseAll(l: Ledger, tids: seq<Id>, height: nat): Ledger
    decreases |tids|
  {
    if tids == [] then l
    else
      var s := ReleaseAll(l, tids[..|tids| - 1], height);
      var tid := tids[|tids| - 1];
      if tid in s.bonds && s.bonds[tid].expiry <= height then Release(s, tid) else s
  }

  function ResolveBonds(l: Ledger, height: nat): Ledger { ReleaseAll(l, Ascending(l.bonds.Keys), height) }

  // ---- 3. provenance, scores and sketches ----

  /** Every delta names some staked, active corpus. */
  predicate Provenance(registry: seq<Entry>, deltas: seq<DeltaTx>) {
    forall d :: d in deltas ==> exists r :: r in d.refs && Backed(registry, r)
  }

  function ScoreSum(deltas: seq<DeltaTx>): nat {
    if deltas == [] then 0 else ScoreSum(deltas[..|deltas| - 1]) + deltas[|deltas| - 1].score
  }

  /** The committed score, or one each when all are zero. */
  function Effective(deltas: seq<DeltaTx>, d: DeltaTx): nat { if ScoreSum(deltas) == 0 then 1 else d.score }

  function MinerWeights(all: seq<DeltaTx>, deltas: seq<DeltaTx>): map<Addr, nat> {
    if deltas == [] then map[]
    else
      var m, d := MinerWeights(all, deltas[..|deltas| - 1]), deltas[|deltas| - 1];
      m[d.miner := Get(m, d.miner) + Effective(all, d)]
  }

  predicate Earns(registry: seq<Entry>, h: Content) {
    exists i :: 0 <= i < |registry| && registry[i].active && registry[i].weight > 0 && registry[i].dataHash == h
  }

  function Named(registry: seq<Entry>, refs: seq<Content>): seq<Content> {
    if refs == [] then []
    else
      var n := |refs| - 1;
      Named(registry, refs[..n]) + if Earns(registry, refs[n]) then [refs[n]] else []
  }

  function AddCredits(m: map<Content, nat>, named: seq<Content>, credit: nat): map<Content, nat> {
    if named == [] then m
    else
      var n := |named| - 1;
      var r := AddCredits(m, named[..n], credit);
      r[named[n] := Get(r, named[n]) + credit]
  }

  function DataCredits(registry: seq<Entry>, all: seq<DeltaTx>, deltas: seq<DeltaTx>): map<Content, nat> {
    if deltas == [] then map[]
    else
      var m, d := DataCredits(registry, all, deltas[..|deltas| - 1]), deltas[|deltas| - 1];
      var named := Named(registry, d.refs);
      if named == [] then m else AddCredits(m, named, Quotient(Effective(all, d) * 10_000, |named|))
  }

  function Saturate(x: int): int { if x > I64_MAX then I64_MAX else if x < -I64_MAX - 1 then -I64_MAX - 1 else x }

  function Blend(acc: seq<int>, sk: seq<int>, n: nat): seq<int>
    requires n > 0
  {
    var len := Min(|acc|, |sk|);
    seq(len, i requires 0 <= i < len => Saturate(acc[i] + sk[i] * 10_000 / n))
  }

  function Sketched(registry: seq<Entry>, idx: seq<nat>, sk: seq<int>, n: nat): (r: seq<Entry>)
    requires n > 0 && forall k :: 0 <= k < |idx| ==> idx[k] < |registry|
    ensures |r| == |registry|
  {
    if idx == [] then registry
    else
      var r, i := Sketched(registry, idx[..|idx| - 1], sk, n), idx[|idx| - 1];
      var acc := if r[i].sketch == [] then seq(|sk|, _ => 0) else r[i].sketch;
      r[i := r[i].(sketch := Blend(acc, sk, n))]
  }

  function BackingAll(registry: seq<Entry>, refs: seq<Content>): (idx: seq<nat>)
    ensures forall k :: 0 <= k < |idx| ==> idx[k] < |registry|
  {
    if refs == [] then []
    else
      var n := |refs| - 1;
      BackingAll(registry, refs[..n]) + if Backed(registry, refs[n]) then [Backing(registry, refs[n])] else []
  }

  /** Accrue each delta's influence sketch onto the corpora it named. */
  function Sketches(registry: seq<Entry>, deltas: seq<DeltaTx>): (r: seq<Entry>)
    ensures |r| == |registry|
  {
    if deltas == [] then registry
    else
      var r, d := Sketches(registry, deltas[..|deltas| - 1]), deltas[|deltas| - 1];
      var idx := BackingAll(r, d.refs);
      if idx == [] || (forall x :: x in d.sketch ==> x == 0) then r else Sketched(r, idx, d.sketch, |idx|)
  }

  // ---- 4. the block reward ----

  function Cut(total: nat, share: nat): nat { total * share / 10_000 }

  function Miners(deltas: seq<DeltaTx>): (m: seq<Addr>)
    ensures |m| == |deltas|
  {
    seq(|deltas|, i requires 0 <= i < |deltas| => deltas[i].miner)
  }

  function WeightsOf(keys: seq<nat>, m: map<nat, nat>): (ws: seq<nat>)
    ensures |ws| == |keys|
  {
    seq(|keys|, i requires 0 <= i < |keys| => Get(m, keys[i]))
  }

  function MinerPays(miners: seq<Addr>, weights: map<Addr, nat>, pool: nat): seq<Pay>
    requires miners != []
  {
    var keys := Ascending(set a | a in miners);
    var ws := WeightsOf(keys, weights);
    if SumSeq(ws) > 0 then Shares(keys, ws, pool, SumSeq(ws)) else EqualShares(miners, pool)
  }

  /** The named hashes that are still backed and carry weight. */
  function Paid(registry: seq<Entry>, credits: map<Content, nat>): set<Content> {
    set h | h in credits && credits[h] > 0 && Backed(registry, h)
  }

  function Owners(registry: seq<Entry>, keys: seq<Content>): (who: seq<Addr>)
    requires forall i :: 0 <= i < |keys| ==> Backed(registry, keys[i])
    ensures |who| == |keys|
  {
    seq(|keys|, i requires 0 <= i < |keys| && Backed(registry, keys[i]) => registry[Backing(registry, keys[i])].owner)
  }

  function DataPays(registry: seq<Entry>, credits: map<Content, nat>, pool: nat): seq<Pay> {
    var keys := Ascending(Paid(registry, credits));
    var ws := WeightsOf(keys, credits);
    AscendingLists(Paid(registry, credits));
    if SumSeq(ws) > 0 then Shares(Owners(registry, keys), ws, pool, SumSeq(ws)) else []
  }

  function ProposerPays(proposer: Option<Addr>, cut: nat): seq<Pay> {
    if proposer.Some? then [Pay(proposer.value, cut)] else []
  }

  /** To the owners of the named data, or else to the genesis contributor. */
  function OwnerPays(registry: seq<Entry>, credits: map<Content, nat>, contributor: Option<Addr>, pool: nat): seq<Pay> {
    if Paid(registry, credits) != {} then DataPays(registry, credits, pool) else ProposerPays(contributor, pool)
  }

  /** How a block pays out a pool of each kind, and whether it has anyone to pay. */
  datatype Payees = Payees(
    miners: nat -> seq<Pay>, proposer: nat -> seq<Pay>, owners: nat -> seq<Pay>, anyMiner: bool, anyOwner: bool)

  function PayeesOf(
    registry: seq<Entry>, miners: seq<Addr>, weights: map<Addr, nat>, credits: map<Content, nat>,
    proposer: Option<Addr>, contributor: Option<Addr>): Payees
  {
    Payees(
      (pool: nat) => if miners == [] then [] else MinerPays(miners, weights, pool),
      (cut: nat) => ProposerPays(proposer, cut),
      (pool: nat) => OwnerPays(registry, credits, contributor, pool),
      miners != [], Paid(registry, credits) != {})
  }

  /** Make the payouts, taking part of them from the fee pools. */
  function PayOut(l: Ledger, pays: seq<Pay>, train: nat, data: nat): Ledger
    requires train <= l.feeTrain && data <= l.feeData
  {
    l.(balances := CreditAll(l.balances, pays), feeTrain := l.feeTrain - train, feeData := l.feeData - data)
  }

  /** Pay the three cuts of an emission, draining a fee pool whose recipients are present. */
  function PayCuts(l: Ledger, minersCut: nat, proposerCut: nat, dataCut: nat, p: Payees): Ledger {
    var train := if p.anyMiner then l.feeTrain else 0;
    var data := if p.anyOwner then l.feeData else 0;
    PayOut(l, p.miners(minersCut + train) + p.proposer(proposerCut) + p.owners(dataCut + data), train, data)
  }

  /** Mint the block's emission and split it; dust is burned. */
  function Reward(l: Ledger, height: nat, p: Payees): Ledger {
    var total := Emission(height);
    if total == 0 && l.feeTrain == 0 && l.feeData == 0 then l
    else PayCuts(l, Cut(total, SHARE_MINERS), Cut(total, SHARE_PROPOSER), Cut(total, SHARE_DATA), p)
  }

  // ---- 5. admission bonds ----

  function LockBond(l: Ledger, tid: Id, miner: Addr, amount: int, height: nat): Option<Ledger> {
    if amount <= 0 then Some(l)
    else if Get(l.balances, miner) < amount then None
    else Some(l.(
      balances := l.balances[miner := Get(l.balances, miner) - amount],
      bonds := l.bonds[tid := Bond(miner, amount, height + BOND_WINDOW)]))
  }

  function LockBonds(l: Ledger, deltas: seq<DeltaTx>, height: nat): Option<Ledger> {
    if deltas == [] then Some(l)
    else
      var r, d := LockBonds(l, deltas[..|deltas| - 1], height), deltas[|deltas| - 1];
      if r.None? then None else LockBond(r.value, d.txid, d.miner, d.bond, height)
  }

  // ---- 6. account transactions ----

  function Debit(l: Ledger, a: Addr, amount: nat): Ledger
    requires amount <= Get(l.balances, a)
  {
    l.(balances := l.balances[a := Get(l.balances, a) - amount])
  }

  predicate HexDigit(c: char) { '0' <= c <= '9' || 'a' <= c <= 'f' }
  predicate WellFormedRoot(s: string) { |s| == 64 && forall i :: 0 <= i < |s| ==> HexDigit(s[i]) }

  function Transferred(l: Ledger, tx: Tx): Option<Ledger>
    requires tx.Transfer?
  {
    if tx.amount <= 0 || Get(l.balances, tx.src) < tx.amount then None
    else
      var d := Debit(l, tx.src, tx.amount);
      Some(d.(balances := Credit(d.balances, Pay(tx.recipient, tx.amount))))
  }

  function Submitted(l: Ledger, tx: Tx): Option<Ledger>
    requires tx.Submit?
  {
    if tx.stake <= 0 || Get(l.balances, tx.src) < tx.stake || Find(l.registry, tx.txid) < |l.registry|
       || !WellFormedRoot(tx.daRoot) || tx.size <= 0 then None
    else
      var d := Debit(l, tx.src, tx.stake);
      Some(d.(registry := l.registry + [Entry(tx.txid, tx.src, tx.dataHash, tx.stake, tx.stake, true, [])]))
  }

  predicate Challenged(challenges: map<Id, Challenge>, dataId: Id) {
    exists c :: c in challenges && challenges[c].dataId == dataId
  }

  function Contested(l: Ledger, tx: Tx, height: nat): Option<Ledger>
    requires tx.Contest?
  {
    var i := Find(l.registry, tx.dataId);
    if i == |l.registry| || !l.registry[i].active || tx.stake <= 0 || Get(l.balances, tx.src) < tx.stake
       || Challenged(l.challenges, tx.dataId) then None
    else
      var d := Debit(l, tx.src, tx.stake);
      Some(d.(challenges :=
        l.challenges[tx.txid := Challenge(tx.dataId, tx.src, tx.stake, height + CHALLENGE_WINDOW, [], [])]))
  }

  /** Insert into an ascending list. */
  function Insert(votes: seq<Addr>, a: Addr): (r: seq<Addr>)
    ensures multiset(r) == multiset(votes) + multiset{a} && |r| == |votes| + 1
  {
    if votes == [] || a <= votes[0] then
      [a] + votes
    else
      assert votes == [votes[0]] + votes[1..];
      [votes[0]] + Insert(votes[1..], a)
  }

  function Voted(l: Ledger, tx: Tx, jurors: set<Addr>): Option<Ledger>
    requires tx.Vote?
  {
    if tx.challengeId !in l.challenges || tx.src !in jurors then None
    else
      var c := l.challenges[tx.challengeId];
      var i := Find(l.registry, c.dataId);
      if tx.src in c.votesFor || tx.src in c.votesAgainst || tx.src == c.challenger
         || (i < |l.registry| && tx.src == l.registry[i].owner) then None
      else
        var v := if tx.support then c.(votesFor := Insert(c.votesFor, tx.src))
                 else c.(votesAgainst := Insert(c.votesAgainst, tx.src));
        Some(l.(challenges := l.challenges[tx.challengeId := v]))
  }

  function Dot(a: seq<int>, b: seq<int>): int {
    if a == [] || b == [] then 0 else a[0] * b[0] + Dot(a[1..], b[1..])
  }

  /** Positive alignment of each owner's corpora with an answer. */
  function Alignments(registry: seq<Entry>, answer: seq<int>): map<Addr, nat> {
    if registry == [] then map[]
    else
      var e := registry[|registry| - 1];
      var m := Alignments(registry[..|registry| - 1], answer);
      if e.active && Dot(e.sketch, answer) > 0 then m[e.owner := Get(m, e.owner) + Dot(e.sketch, answer)] else m
  }

  /** The data slice of a fee, paid by alignment; empty when nothing aligns. */
  function AlignedPays(registry: seq<Entry>, answer: seq<int>, cut: nat): Option<seq<Pay>> {
    var m := Alignments(registry, answer);
    var keys := Ascending(m.Keys);
    var ws := WeightsOf(keys, m);
    if SumSeq(ws) > 0 then Some(Shares(keys, ws, cut, SumSeq(ws))) else None
  }

  /** A fee, its slices given: the server is paid at once, the rest goes to the pools or to aligned owners. */
  function Serve(
    l: Ledger, src: Addr, server: Addr, fee: nat, dataCut: nat, trainCut: nat, answer: seq<int>): Ledger
    requires fee <= Get(l.balances, src) && dataCut + trainCut <= fee
  {
    var d := Debit(l, src, fee);
    var paid := d.(
      balances := Credit(d.balances, Pay(server, fee - dataCut - trainCut)), feeTrain := l.feeTrain + trainCut);
    var pays := AlignedPays(l.registry, answer, dataCut);
    if pays.Some? then paid.(balances := CreditAll(paid.balances, pays.value))
    else paid.(feeData := l.feeData + dataCut)
  }

  function Served(l: Ledger, tx: Tx): Option<Ledger>
    requires tx.Receipt?
  {
    if tx.fee <= 0 || Get(l.balances, tx.src) < tx.fee then None
    else Some(Serve(l, tx.src, tx.server, tx.fee, Cut(tx.fee, FEE_SHARE_DATA), Cut(tx.fee, FEE_SHARE_TRAIN), tx.answer))
  }

  function Effect(l: Ledger, tx: Tx, height: nat, jurors: set<Addr>): Option<Ledger> {
    match tx
    case Transfer(_, _, _, _, _, _) => Transferred(l, tx)
    case Submit(_, _, _, _, _, _, _, _) => Submitted(l, tx)
    case Contest(_, _, _, _, _, _) => Contested(l, tx, height)
    case Vote(_, _, _, _, _, _) => Voted(l, tx, jurors)
    case Receipt(_, _, _, _, _, _, _) => Served(l, tx)
  }

  function ApplyTx(l: Ledger, tx: Tx, height: nat, jurors: set<Addr>): Option<Ledger> {
    if !tx.signed || tx.nonce != Get(l.nonces, tx.src) then None
    else
      var r := Effect(l, tx, height, jurors);
      if r.None? then None else Some(r.value.(nonces := r.value.nonces[tx.src := tx.nonce + 1]))
  }

  function ApplyTxs(l: Ledger, txs: seq<Tx>, height: nat, jurors: set<Addr>): Option<Ledger> {
    if txs == [] then Some(l)
    else
      var r := ApplyTxs(l, txs[..|txs| - 1], height, jurors);
      if r.None? then None else ApplyTx(r.value, txs[|txs| - 1], height, jurors)
  }

  // ---- the canonical order of a block's account transactions ----

  /** (sender, nonce, txid), lexicographically. */
  predicate Before(a: Tx, b: Tx) {
    a.src < b.src || (a.src == b.src && (a.nonce < b.nonce || (a.nonce == b.nonce && a.txid <= b.txid)))
  }

  function InsertTx(txs: seq<Tx>, t: Tx): (r: seq<Tx>)
    ensures multiset(r) == multiset(txs) + multiset{t}
  {
    if txs == [] || Before(t, txs[0]) then [t] + txs
    else
      assert txs == [txs[0]] + txs[1..];
      [txs[0]] + InsertTx(txs[1..], t)
  }

  function Canonical(txs: seq<Tx>): (r: seq<Tx>)
    ensures multiset(r) == multiset(txs)
  {
    if txs == [] then []
    else
      assert txs == txs[..|txs| - 1] + [txs[|txs| - 1]];
      InsertTx(Canonical(txs[..|txs| - 1]), txs[|txs| - 1])
  }

  // ---- the block transition ----

  function BlockPayees(registry: seq<Entry>, b: BlockBody): Payees {
    PayeesOf(registry, Miners(b.deltas), MinerWeights(b.deltas, b.deltas),
             DataCredits(registry, b.deltas, b.deltas), b.proposer, b.contributor)
  }

  /** Steps 1 to 4: settle, release, check provenance, accrue sketches, pay the reward. */
  function Paying(l: Ledger, b: BlockBody, height: nat): Option<Ledger> {
    var s := ResolveBonds(ResolveChallenges(l, height), height);
    if !Provenance(s.registry, b.deltas) then None
    else
      var r := s.(registry := Sketches(s.registry, b.deltas));
      Some(Reward(r, height, BlockPayees(r.registry, b)))
  }

  function ApplyBlock(l: Ledger, b: BlockBody, height: nat): Option<Ledger> {
    var p := Paying(l, b, height);
    if p.None? then None
    else
      var q := LockBonds(p.value, b.deltas, height);
      if q.None? then None else ApplyTxs(q.value, Canonical(b.txs), height, b.jurors)
  }

  function GenesisLedger(contributor: Option<Addr>): Ledger {
    var registry := if contributor.None? then [] else
      [Entry(GENESIS_ID, contributor.value, GENESIS_DATA, 0, GENESIS_DATA_WEIGHT, true, [])];
    Ledger(map[], map[], registry, map[], map[], 0, 0)
  }

  function Next(r: Option<Ledger>, b: BlockBody, height: nat): Option<Ledger> {
    if r.None? then None else ApplyBlock(r.value, b, height)
  }

  /** The ledger after blocks at heights 1, 2, ..., or None once one is invalid. */
  function Run(contributor: Option<Addr>, blocks: seq<BlockBody>): Option<Ledger> {
    if blocks == [] then Some(GenesisLedger(contributor))
    else Next(Run(contributor, blocks[..|blocks| - 1]), blocks[|blocks| - 1], |blocks|)
  }
}
