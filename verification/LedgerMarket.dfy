/** What the data market and the nonces keep over every run. */
module LedgerMarket {
  import opened Wrappers
  import opened Sums
  import opened Ordering
  import opened Token

  // ---- the market invariant ----

  ghost predicate Unique(registry: seq<Entry>) {
    forall i, j :: 0 <= i < j < |registry| ==> registry[i].id != registry[j].id
  }

  ghost predicate NoDup(s: seq<Addr>) { forall i, j :: 0 <= i < j < |s| ==> s[i] != s[j] }

  /** Distinct jurors, each on one side, none of them a party. */
  ghost predicate FairJury(c: Challenge, owner: Addr) {
    && NoDup(c.votesFor) && NoDup(c.votesAgainst)
    && (forall a :: a in c.votesFor ==> a !in c.votesAgainst && a != owner && a != c.challenger)
    && (forall a :: a in c.votesAgainst ==> a != owner && a != c.challenger)
  }

  /** The challenge targets an existing, active entry and its jury is fair. */
  ghost predicate Targets(registry: seq<Entry>, c: Challenge) {
    exists i :: 0 <= i < |registry|
      && registry[i].id == c.dataId && registry[i].active && FairJury(c, registry[i].owner)
  }

  /** At most one open challenge per entry. */
  ghost predicate OneEach(m: map<Id, Challenge>) {
    forall c, d :: c in m && d in m && c != d ==> m[c].dataId != m[d].dataId
  }

  ghost predicate Market(l: Ledger) {
    && Unique(l.registry) && OneEach(l.challenges)
    && forall c :: c in l.challenges ==> Targets(l.registry, l.challenges[c])
  }

  lemma {:induction false} FindsUnique(registry: seq<Entry>, i: nat)
    requires Unique(registry) && i < |registry|
    ensures Find(registry, registry[i].id) == i
  {
    if i > 0 {
      assert registry[1..][i - 1] == registry[i];
      FindsUnique(registry[1..], i - 1);
    }
  }

  lemma {:induction false} FindsNothing(registry: seq<Entry>, id: Id)
    requires Find(registry, id) == |registry|
    ensures forall i :: 0 <= i < |registry| ==> registry[i].id != id
  {
    if registry != [] {
      FindsNothing(registry[1..], id);
      forall i | 0 <= i < |registry| ensures registry[i].id != id {
        if i > 0 { assert registry[i] == registry[1..][i - 1]; }
      }
    }
  }

  // ---- entries over time ----

  /** b extends a: existing entries keep everything but their sketch. */
  ghost predicate Extends(a: seq<Entry>, b: seq<Entry>) {
    |a| <= |b| && forall i :: 0 <= i < |a| ==> b[i].(sketch := a[i].sketch) == a[i]
  }

  lemma {:induction false} ExtendsTrans(a: seq<Entry>, b: seq<Entry>, c: seq<Entry>)
    requires Extends(a, b) && Extends(b, c)
    ensures Extends(a, c)
  {
    forall i | 0 <= i < |a| ensures c[i].(sketch := a[i].sketch) == a[i] {
      assert b[i].(sketch := a[i].sketch) == a[i] && c[i].(sketch := b[i].sketch) == b[i];
    }
  }

  lemma {:induction false} TargetsStay(a: seq<Entry>, b: seq<Entry>, c: Challenge)
    requires Extends(a, b) && Targets(a, c)
    ensures Targets(b, c)
  {
    var i :| 0 <= i < |a| && a[i].id == c.dataId && a[i].active && FairJury(c, a[i].owner);
    assert b[i].(sketch := a[i].sketch) == a[i];
  }

  /** The market survives a longer registry with fresh ids. */
  lemma {:induction false} MarketExtends(l: Ledger, registry: seq<Entry>)
    requires Market(l) && Extends(l.registry, registry) && Unique(registry)
    ensures Market(l.(registry := registry))
  {
    forall c | c in l.challenges ensures Targets(registry, l.challenges[c]) {
      TargetsStay(l.registry, registry, l.challenges[c]);
    }
  }

  // ---- settling ----

  /** An upheld challenge: a quorum of distinct jurors, none of them owner or challenger. */
  ghost predicate Convicts(l: Ledger, e: Entry, height: nat) {
    exists c :: c in l.challenges && Convicting(l.challenges[c], e, height)
  }

  ghost predicate Convicting(c: Challenge, e: Entry, height: nat) {
    && c.dataId == e.id && c.expiry <= height
    && |c.votesFor| >= CHALLENGE_QUORUM && |c.votesFor| > |c.votesAgainst| && FairJury(c, e.owner)
  }

  /** Entry i is as it was, or lost its stake to an upheld challenge of l. */
  ghost predicate Accounted(l: Ledger, registry: seq<Entry>, height: nat, i: nat)
    requires i < |l.registry| && i < |registry|
  {
    var e, f := l.registry[i], registry[i];
    && f.id == e.id && f.owner == e.owner && f.dataHash == e.dataHash
    && ((f.stake == e.stake && f.active == e.active) || (f.stake == 0 && !f.active && Convicts(l, e, height)))
  }

  ghost predicate AllAccounted(l: Ledger, registry: seq<Entry>, height: nat) {
    |l.registry| <= |registry| && forall i :: 0 <= i < |l.registry| ==> Accounted(l, registry, height, i)
  }

  lemma {:induction false} TargetOf(l: Ledger, cid: Id) returns (i: nat)
    requires Market(l) && cid in l.challenges
    ensures i < |l.registry| && l.registry[i].id == l.challenges[cid].dataId && l.registry[i].active
    ensures FairJury(l.challenges[cid], l.registry[i].owner) && Find(l.registry, l.challenges[cid].dataId) == i
  {
    var c := l.challenges[cid];
    assert Targets(l.registry, c);
    i :| 0 <= i < |l.registry| && l.registry[i].id == c.dataId && l.registry[i].active
      && FairJury(c, l.registry[i].owner);
    FindsUnique(l.registry, i);
  }

  function AfterVerdict(e: Entry, upheld: bool): Entry { if upheld then e.(active := false, stake := 0) else e }

  lemma {:induction false} SettleShape(l: Ledger, cid: Id, i: nat)
    requires cid in l.challenges && i < |l.registry| && Find(l.registry, l.challenges[cid].dataId) == i
    ensures var s := Settle(l, cid);
      && s.challenges == l.challenges - {cid} && s.nonces == l.nonces
      && s.registry == l.registry[i := AfterVerdict(l.registry[i], Upheld(l.challenges[cid]))]
  {
  }

  /** Removing a challenge and touching only its own entry keeps the market. */
  lemma {:induction false} MarketWithout(l: Ledger, s: Ledger, cid: Id, i: nat, e: Entry)
    requires Market(l) && cid in l.challenges && i < |l.registry| && l.registry[i].id == l.challenges[cid].dataId
    requires s.challenges == l.challenges - {cid} && s.registry == l.registry[i := e] && e.id == l.registry[i].id
    ensures Market(s)
  {
    forall d | d in s.challenges ensures Targets(s.registry, s.challenges[d]) {
      assert l.challenges[d].dataId != l.challenges[cid].dataId;
      OtherTarget(l.registry, l.challenges[d], i, e);
    }
  }

  lemma {:induction false} OtherTarget(registry: seq<Entry>, d: Challenge, i: nat, e: Entry)
    requires Targets(registry, d) && i < |registry| && (registry[i].id != d.dataId || e == registry[i])
    ensures Targets(registry[i := e], d)
  {
    var j :| 0 <= j < |registry| && registry[j].id == d.dataId && registry[j].active && FairJury(d, registry[j].owner);
    assert registry[i := e][j] == registry[j];
  }

  /** What settling a list of expired challenges keeps, relative to the ledger it started from. */
  ghost predicate Settled(l: Ledger, s: Ledger, height: nat) {
    && Market(s) && AllAccounted(l, s.registry, height) && |s.registry| == |l.registry|
    && s.challenges.Keys <= l.challenges.Keys && s.nonces == l.nonces
    && forall c :: c in s.challenges ==> s.challenges[c] == l.challenges[c]
  }

  lemma {:induction false} SettledStep(l: Ledger, s: Ledger, cid: Id, height: nat)
    requires Settled(l, s, height) && cid in s.challenges && s.challenges[cid].expiry <= height
    ensures Settled(l, Settle(s, cid), height)
  {
    var c, t := s.challenges[cid], Settle(s, cid);
    var i := TargetOf(s, cid);
    SettleShape(s, cid, i);
    MarketWithout(s, t, cid, i, AfterVerdict(s.registry[i], Upheld(c)));
    forall j | 0 <= j < |l.registry| ensures Accounted(l, t.registry, height, j) {
      assert Accounted(l, s.registry, height, j);
      if j == i && Upheld(c) { assert Convicting(l.challenges[cid], l.registry[j], height); }
    }
  }

  lemma {:induction false} SettleAllKeeps(l: Ledger, cids: seq<Id>, height: nat)
    requires Market(l)
    ensures Settled(l, SettleAll(l, cids, height), height)
    decreases |cids|
  {
    if cids != [] {
      SettleAllKeeps(l, cids[..|cids| - 1], height);
      var s, cid := SettleAll(l, cids[..|cids| - 1], height), cids[|cids| - 1];
      if cid in s.challenges && s.challenges[cid].expiry <= height { SettledStep(l, s, cid, height); }
    }
  }

  // ---- the other steps ----

  /** Same market and nonces, entries at most re-sketched. */
  ghost predicate Beside(l: Ledger, s: Ledger) {
    && Extends(l.registry, s.registry) && |s.registry| == |l.registry|
    && s.challenges == l.challenges && s.nonces == l.nonces
  }

  lemma {:induction false} BesideMarket(l: Ledger, s: Ledger)
    requires Market(l) && Beside(l, s)
    ensures Market(s)
  {
    forall i, j | 0 <= i < j < |s.registry| ensures s.registry[i].id != s.registry[j].id {
      assert s.registry[i].(sketch := l.registry[i].sketch) == l.registry[i];
      assert s.registry[j].(sketch := l.registry[j].sketch) == l.registry[j];
    }
    forall c | c in s.challenges ensures Targets(s.registry, s.challenges[c]) {
      TargetsStay(l.registry, s.registry, l.challenges[c]);
    }
  }

  lemma {:induction false} ReleaseAllBeside(l: Ledger, tids: seq<Id>, height: nat)
    ensures ReleaseAll(l, tids, height).registry == l.registry
    ensures ReleaseAll(l, tids, height).challenges == l.challenges && ReleaseAll(l, tids, height).nonces == l.nonces
    decreases |tids|
  {
    if tids != [] { ReleaseAllBeside(l, tids[..|tids| - 1], height); }
  }

  lemma {:induction false} SketchedExtends(registry: seq<Entry>, idx: seq<nat>, sk: seq<int>, n: nat)
    requires n > 0 && forall k :: 0 <= k < |idx| ==> idx[k] < |registry|
    ensures Extends(registry, Sketched(registry, idx, sk, n))
    decreases |idx|
  {
    if idx != [] { SketchedExtends(registry, idx[..|idx| - 1], sk, n); }
  }

  lemma {:induction false} SketchesExtend(registry: seq<Entry>, deltas: seq<DeltaTx>)
    ensures Extends(registry, Sketches(registry, deltas))
    decreases |deltas|
  {
    if deltas != [] {
      var init, d := deltas[..|deltas| - 1], deltas[|deltas| - 1];
      SketchesExtend(registry, init);
      var r := Sketches(registry, init);
      var idx := BackingAll(r, d.refs);
      if idx != [] {
        SketchedExtends(r, idx, d.sketch, |idx|);
        ExtendsTrans(registry, r, Sketched(r, idx, d.sketch, |idx|));
      }
    }
  }

  lemma {:induction false} LockBondsBeside(l: Ledger, deltas: seq<DeltaTx>, height: nat)
    ensures LockBonds(l, deltas, height).Some? ==>
      var s := LockBonds(l, deltas, height).value;
      s.registry == l.registry && s.challenges == l.challenges && s.nonces == l.nonces
    decreases |deltas|
  {
    if deltas != [] { LockBondsBeside(l, deltas[..|deltas| - 1], height); }
  }

  // ---- account transactions ----

  lemma {:induction false} SubmitKeeps(l: Ledger, tx: Tx)
    requires Market(l) && tx.Submit? && Submitted(l, tx).Some?
    ensures Market(Submitted(l, tx).value) && Extends(l.registry, Submitted(l, tx).value.registry)
  {
    FindsNothing(l.registry, tx.txid);
    MarketExtends(l, Submitted(l, tx).value.registry);
  }

  lemma {:induction false} ContestKeeps(l: Ledger, tx: Tx, height: nat)
    requires Market(l) && tx.Contest? && Contested(l, tx, height).Some?
    ensures Market(Contested(l, tx, height).value)
  {
    var s, i := Contested(l, tx, height).value, Find(l.registry, tx.dataId);
    assert FairJury(s.challenges[tx.txid], l.registry[i].owner);
    assert Targets(l.registry, s.challenges[tx.txid]);
    forall c, d | c in s.challenges && d in s.challenges && c != d
      ensures s.challenges[c].dataId != s.challenges[d].dataId
    {
      assert c == tx.txid ==> d in l.challenges;
      assert d == tx.txid ==> c in l.challenges;
    }
  }

  lemma {:induction false} InsertFair(votes: seq<Addr>, a: Addr)
    requires NoDup(votes) && a !in votes
    ensures NoDup(Insert(votes, a)) && forall x :: x in Insert(votes, a) <==> x == a || x in votes
    decreases |votes|
  {
    var r := Insert(votes, a);
    if votes == [] || a <= votes[0] {
      assert r == [a] + votes;
    } else {
      var rest := votes[1..];
      InsertFair(rest, a);
      assert r == [votes[0]] + Insert(rest, a);
      assert votes[0] !in rest;
    }
  }

  lemma {:induction false} VoteKeeps(l: Ledger, tx: Tx, jurors: set<Addr>)
    requires Market(l) && tx.Vote? && Voted(l, tx, jurors).Some?
    ensures Market(Voted(l, tx, jurors).value)
  {
    var c, s := l.challenges[tx.challengeId], Voted(l, tx, jurors).value;
    var i := TargetOf(l, tx.challengeId);
    if tx.support { InsertFair(c.votesFor, tx.src); } else { InsertFair(c.votesAgainst, tx.src); }
    assert FairJury(s.challenges[tx.challengeId], l.registry[i].owner);
    assert Targets(l.registry, s.challenges[tx.challengeId]);
  }

  lemma {:induction false} TransferKeeps(l: Ledger, tx: Tx)
    requires Market(l) && tx.Transfer? && Transferred(l, tx).Some?
    ensures Market(Transferred(l, tx).value) && Extends(l.registry, Transferred(l, tx).value.registry)
    ensures Transferred(l, tx).value.nonces == l.nonces
  {
  }

  lemma {:induction false} ReceiptKeeps(l: Ledger, tx: Tx)
    requires Market(l) && tx.Receipt? && Served(l, tx).Some?
    ensures Market(Served(l, tx).value) && Extends(l.registry, Served(l, tx).value.registry)
    ensures Served(l, tx).value.nonces == l.nonces
  {
  }

  lemma {:induction false} EffectKeeps(l: Ledger, tx: Tx, height: nat, jurors: set<Addr>)
    requires Market(l) && Effect(l, tx, height, jurors).Some?
    ensures var s := Effect(l, tx, height, jurors).value;
      Market(s) && Extends(l.registry, s.registry) && s.nonces == l.nonces
  {
    match tx
    case Transfer(_, _, _, _, _, _) => TransferKeeps(l, tx);
    case Submit(_, _, _, _, _, _, _, _) => SubmitKeeps(l, tx);
    case Contest(_, _, _, _, _, _) => ContestKeeps(l, tx, height);
    case Vote(_, _, _, _, _, _) => VoteKeeps(l, tx, jurors);
    case Receipt(_, _, _, _, _, _, _) => ReceiptKeeps(l, tx);
  }

  lemma {:induction false} TxKeeps(l: Ledger, tx: Tx, height: nat, jurors: set<Addr>)
    requires Market(l) && ApplyTx(l, tx, height, jurors).Some?
    ensures var s := ApplyTx(l, tx, height, jurors).value;
      && Market(s) && Extends(l.registry, s.registry)
      && tx.nonce == Get(l.nonces, tx.src) && s.nonces == l.nonces[tx.src := Get(l.nonces, tx.src) + 1]
  {
    EffectKeeps(l, tx, height, jurors);
  }

  // ---- nonces count applied transactions ----

  /** How many of the transactions are the account's. */
  function Count(txs: seq<Tx>, a: Addr): nat {
    if txs == [] then 0
    else Count(txs[..|txs| - 1], a) + if txs[|txs| - 1].src == a then 1 else 0
  }

  /** Each transaction carries the number of the account's transactions before it, offset by base. */
  ghost predicate Numbered(txs: seq<Tx>, base: map<Addr, nat>) {
    forall i :: 0 <= i < |txs| ==> txs[i].nonce == Get(base, txs[i].src) + Count(txs[..i], txs[i].src)
  }

  ghost predicate Counted(before: map<Addr, nat>, txs: seq<Tx>, after: map<Addr, nat>) {
    forall a :: Get(after, a) == Get(before, a) + Count(txs, a)
  }

  lemma {:induction false} NumberedSnoc(init: seq<Tx>, t: Tx, base: map<Addr, nat>, mid: map<Addr, nat>)
    requires Numbered(init, base) && Counted(base, init, mid) && t.nonce == Get(mid, t.src)
    ensures Numbered(init + [t], base) && Counted(base, init + [t], mid[t.src := Get(mid, t.src) + 1])
  {
    var txs := init + [t];
    assert txs[..|init|] == init;
    forall i | 0 <= i < |txs| ensures txs[i].nonce == Get(base, txs[i].src) + Count(txs[..i], txs[i].src) {
      assert i < |init| ==> txs[..i] == init[..i];
    }
  }

  /** What applying a list of transactions keeps. */
  ghost predicate TxsDone(l: Ledger, txs: seq<Tx>, s: Ledger) {
    Market(s) && Extends(l.registry, s.registry) && Numbered(txs, l.nonces) && Counted(l.nonces, txs, s.nonces)
  }

  lemma {:induction false} TxsStep(l: Ledger, init: seq<Tx>, t: Tx, txs: seq<Tx>, m: Ledger, s: Ledger)
    requires txs == init + [t] && TxsDone(l, init, m) && Market(s) && Extends(m.registry, s.registry)
    requires t.nonce == Get(m.nonces, t.src) && s.nonces == m.nonces[t.src := Get(m.nonces, t.src) + 1]
    ensures TxsDone(l, txs, s)
  {
    ExtendsTrans(l.registry, m.registry, s.registry);
    NumberedSnoc(init, t, l.nonces, m.nonces);
  }

  lemma {:induction false} TxsKeep(l: Ledger, txs: seq<Tx>, height: nat, jurors: set<Addr>)
    requires Market(l) && ApplyTxs(l, txs, height, jurors).Some?
    ensures TxsDone(l, txs, ApplyTxs(l, txs, height, jurors).value)
    decreases |txs|
  {
    if txs != [] {
      var init, t := txs[..|txs| - 1], txs[|txs| - 1];
      assert txs == init + [t];
      TxsKeep(l, init, height, jurors);
      var m := ApplyTxs(l, init, height, jurors).value;
      TxKeeps(m, t, height, jurors);
      TxsStep(l, init, t, txs, m, ApplyTx(m, t, height, jurors).value);
    }
  }

  // ---- a block, and a run ----

  lemma {:induction false} PayingKeeps(l: Ledger, b: BlockBody, height: nat)
    requires Market(l) && Paying(l, b, height).Some?
    ensures var s := Paying(l, b, height).value;
      Market(s) && AllAccounted(l, s.registry, height) && s.nonces == l.nonces
  {
    var s1 := ResolveChallenges(l, height);
    var s2 := ResolveBonds(s1, height);
    var s := Paying(l, b, height).value;
    SettleAllKeeps(l, Ascending(l.challenges.Keys), height);
    ReleaseAllBeside(s1, Ascending(s1.bonds.Keys), height);
    SketchesExtend(s2.registry, b.deltas);
    BesideMarket(s1, s);
    AccountedExtends(l, s1.registry, s.registry, height);
  }

  lemma {:induction false} AccountedExtends(l: Ledger, a: seq<Entry>, b: seq<Entry>, height: nat)
    requires AllAccounted(l, a, height) && Extends(a, b)
    ensures AllAccounted(l, b, height)
  {
    forall i | 0 <= i < |l.registry| ensures Accounted(l, b, height, i) {
      assert Accounted(l, a, height, i) && b[i].(sketch := a[i].sketch) == a[i];
    }
  }

  /**
   * One block: the market invariant survives, every entry keeps its stake and
   * status unless an upheld challenge of the parent ledger took them, and nonces
   * advance by the number of applied transactions.
   */
  ghost predicate BlockDone(l: Ledger, b: BlockBody, height: nat, s: Ledger) {
    && Market(s) && AllAccounted(l, s.registry, height)
    && Numbered(Canonical(b.txs), l.nonces) && Counted(l.nonces, Canonical(b.txs), s.nonces)
  }

  lemma {:induction false} BlockKeeps(l: Ledger, b: BlockBody, height: nat)
    requires Market(l) && ApplyBlock(l, b, height).Some?
    ensures BlockDone(l, b, height, ApplyBlock(l, b, height).value)
  {
    var p := Paying(l, b, height).value;
    PayingKeeps(l, b, height);
    LockBondsBeside(p, b.deltas, height);
    var q := LockBonds(p, b.deltas, height).value;
    TxsKeep(q, Canonical(b.txs), height, b.jurors);
    AccountedExtends(l, p.registry, ApplyBlock(l, b, height).value.registry, height);
  }

  lemma {:induction false} NextKeeps(r: Option<Ledger>, b: BlockBody, height: nat)
    requires Next(r, b, height).Some? && Market(r.value)
    ensures r.Some? && BlockDone(r.value, b, height, Next(r, b, height).value)
  {
    BlockKeeps(r.value, b, height);
  }

  /** Every account transaction a chain of blocks applied, in order. */
  function History(blocks: seq<BlockBody>): seq<Tx> {
    if blocks == [] then [] else History(blocks[..|blocks| - 1]) + Canonical(blocks[|blocks| - 1].txs)
  }

  lemma {:induction false} CountAppend(a: seq<Tx>, b: seq<Tx>, who: Addr)
    ensures Count(a + b, who) == Count(a, who) + Count(b, who)
    decreases |b|
  {
    if b == [] {
      assert a + b == a;
    } else {
      var n := |b| - 1;
      CountAppend(a, b[..n], who);
      assert (a + b)[..|a + b| - 1] == a + b[..n];
    }
  }

  lemma {:induction false} HistoryStep(h: seq<Tx>, txs: seq<Tx>, mid: map<Addr, nat>, after: map<Addr, nat>)
    requires Numbered(h, map[]) && Counted(map[], h, mid) && Numbered(txs, mid) && Counted(mid, txs, after)
    ensures Numbered(h + txs, map[]) && Counted(map[], h + txs, after)
  {
    var all := h + txs;
    forall i | 0 <= i < |all| ensures all[i].nonce == Count(all[..i], all[i].src) {
      if i < |h| {
        assert all[..i] == h[..i];
      } else {
        assert all[..i] == h + txs[..i - |h|];
        CountAppend(h, txs[..i - |h|], all[i].src);
      }
    }
    forall a ensures Get(after, a) == Count(all, a) { CountAppend(h, txs, a); }
  }

  /** Over every run: the market invariant, and each account's nonce is its number of applied transactions. */
  lemma {:induction false} RunKeeps(contributor: Option<Addr>, blocks: seq<BlockBody>)
    requires Run(contributor, blocks).Some?
    ensures var l := Run(contributor, blocks).value;
      Market(l) && Numbered(History(blocks), map[]) && Counted(map[], History(blocks), l.nonces)
    decreases |blocks|
  {
    if blocks != [] {
      var n := |blocks| - 1;
      var r := Run(contributor, blocks[..n]);
      RunKeeps(contributor, blocks[..n]);
      NextKeeps(r, blocks[n], n + 1);
      HistoryStep(
        History(blocks[..n]), Canonical(blocks[n].txs), r.value.nonces, Run(contributor, blocks).value.nonces);
    }
  }

  lemma {:induction false} CountMonotone(txs: seq<Tx>, i: nat, j: nat, a: Addr)
    requires i <= j <= |txs|
    ensures Count(txs[..i], a) <= Count(txs[..j], a)
  {
    if i < j {
      CountMonotone(txs, i, j - 1, a);
      assert txs[..j][..j - 1] == txs[..j - 1];
    }
  }

  lemma {:induction false} NumberedIncreases(h: seq<Tx>, i: nat, j: nat)
    requires Numbered(h, map[]) && i < j < |h| && h[i].src == h[j].src
    ensures h[i].nonce < h[j].nonce
  {
    CountMonotone(h, i + 1, j, h[i].src);
    assert h[..i + 1][..i] == h[..i];
  }

  /** No transaction applies twice: along a run an account's nonces strictly increase. */
  lemma {:induction false} NoReplay(contributor: Option<Addr>, blocks: seq<BlockBody>, i: nat, j: nat)
    requires Run(contributor, blocks).Some? && i < j < |History(blocks)|
    requires History(blocks)[i].src == History(blocks)[j].src
    ensures History(blocks)[i].nonce < History(blocks)[j].nonce && History(blocks)[i] != History(blocks)[j]
  {
    RunKeeps(contributor, blocks);
    NumberedIncreases(History(blocks), i, j);
  }

  /** Over every run a stake leaves escrow only by conviction, in the block where it leaves. */
  lemma {:induction false} StakeLeavesByConviction(contributor: Option<Addr>, blocks: seq<BlockBody>, i: nat)
    requires blocks != [] && Run(contributor, blocks).Some?
    requires Run(contributor, blocks[..|blocks| - 1]).Some?
    requires i < |Run(contributor, blocks[..|blocks| - 1]).value.registry|
    ensures var l, s := Run(contributor, blocks[..|blocks| - 1]).value, Run(contributor, blocks).value;
      i < |s.registry| && Accounted(l, s.registry, |blocks|, i)
  {
    var n := |blocks| - 1;
    RunKeeps(contributor, blocks[..n]);
    NextKeeps(Run(contributor, blocks[..n]), blocks[n], n + 1);
  }
}
