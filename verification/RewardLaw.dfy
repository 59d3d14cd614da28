/**
 * A block's reward, account by account: the emission and the fee pools, split
 * by the scores of the block's deltas and by the data they name.
 */
module RewardLaw {
  import opened Wrappers
  import opened Sums
  import opened Ordering
  import opened Token
  import opened LedgerConservation
  import opened EmissionLaw
  import opened PayoutLaw
  import opened AccountLaw

  // ---- what is minted ----

  ghost function Half(n: nat): nat { if n == 0 then 50_000_000_000 else Half(n - 1) / 2 }

  /** Fifty tokens, halved every million blocks, and never less than the tail. */
  ghost function Mint(height: nat): nat {
    if height == 0 then 0
    else
      var halved := Half((height - 1) / 1_000_000);
      if halved < 97_656_250 then 97_656_250 else halved
  }

  lemma {:induction false} HalfIsEpoch(n: nat)
    ensures Half(n) == Epoch(n)
  {
    if n > 0 { HalfIsEpoch(n - 1); }
  }

  lemma {:induction false} MintIs(height: nat)
    ensures Emission(height) == Mint(height)
  {
    if height > 0 {
      var e := (height - 1) / 1_000_000;
      HalfIsEpoch(e);
      HalfIsEpoch(62);
      if e > 62 {
        EpochFloors(e);
        EpochFloors(62);
      }
    }
  }

  /** Nothing is held at genesis; a founding contributor owns the one entry, of weight a million and no stake. */
  lemma {:induction false} GenesisIs(contributor: Option<Addr>)
    ensures var l := GenesisLedger(contributor);
      && l.balances == map[] && l.nonces == map[] && l.challenges == map[] && l.bonds == map[]
      && l.feeData == 0 && l.feeTrain == 0 && |l.registry| == (if contributor.Some? then 1 else 0)
      && (contributor.Some? ==>
            l.registry[0].owner == contributor.value && l.registry[0].active && l.registry[0].weight == 1_000_000
            && l.registry[0].stake == 0 && l.registry[0].sketch == [])
  {
  }

  // ---- the miners ----

  /** No delta of the block has a score. */
  ghost predicate Flat(deltas: seq<DeltaTx>) { forall i :: 0 <= i < |deltas| ==> deltas[i].score == 0 }

  /** What a delta counts for: its score, or one when no delta has any. */
  ghost function Worth(flat: bool, d: DeltaTx): nat { if flat then 1 else d.score }

  ghost function WorthOf(flat: bool, deltas: seq<DeltaTx>, a: Addr): nat {
    if deltas == [] then 0
    else WorthOf(flat, deltas[..|deltas| - 1], a)
         + if deltas[|deltas| - 1].miner == a then Worth(flat, deltas[|deltas| - 1]) else 0
  }

  ghost function WorthOfAll(flat: bool, deltas: seq<DeltaTx>): nat {
    if deltas == [] then 0 else WorthOfAll(flat, deltas[..|deltas| - 1]) + Worth(flat, deltas[|deltas| - 1])
  }

  /** A miner's part of a pool. */
  ghost function MinerPart(deltas: seq<DeltaTx>, pool: nat, a: Addr): nat {
    var all := WorthOfAll(Flat(deltas), deltas);
    if all == 0 then 0 else pool * WorthOf(Flat(deltas), deltas, a) / all
  }

  lemma {:induction false} FlatIsZeroSum(deltas: seq<DeltaTx>)
    ensures ScoreSum(deltas) == 0 <==> Flat(deltas)
  {
    if deltas != [] {
      var init := deltas[..|deltas| - 1];
      FlatIsZeroSum(init);
      if Flat(deltas) {
        forall i | 0 <= i < |init| ensures init[i].score == 0 { assert init[i] == deltas[i]; }
      }
      if ScoreSum(deltas) == 0 {
        forall i | 0 <= i < |deltas| ensures deltas[i].score == 0 {
          if i < |init| { assert init[i] == deltas[i]; }
        }
      }
    }
  }

  lemma {:induction false} WeightIsWorth(all: seq<DeltaTx>, deltas: seq<DeltaTx>, a: Addr)
    ensures Get(MinerWeights(all, deltas), a) == WorthOf(Flat(all), deltas, a)
  {
    if deltas != [] {
      WeightIsWorth(all, deltas[..|deltas| - 1], a);
      FlatIsZeroSum(all);
    }
  }

  lemma {:induction false} WeightsAreWorth(all: seq<DeltaTx>, deltas: seq<DeltaTx>)
    ensures MapSum(MinerWeights(all, deltas)) == WorthOfAll(Flat(all), deltas)
    ensures MinerWeights(all, deltas).Keys == set a | a in Miners(deltas)
  {
    if deltas != [] {
      var init, d := deltas[..|deltas| - 1], deltas[|deltas| - 1];
      var m := MinerWeights(all, init);
      WeightsAreWorth(all, init);
      FlatIsZeroSum(all);
      SumUpdate(m, d.miner, Get(m, d.miner) + Effective(all, d));
      assert Miners(deltas) == Miners(init) + [d.miner];
    }
  }

  lemma {:induction false} WorthPositive(deltas: seq<DeltaTx>, all: seq<DeltaTx>)
    requires deltas != [] && (Flat(all) || !Flat(deltas))
    ensures WorthOfAll(Flat(all), deltas) > 0
  {
    var init := deltas[..|deltas| - 1];
    if !Flat(all) && deltas[|deltas| - 1].score == 0 {
      assert !Flat(init) by {
        var i :| 0 <= i < |deltas| && deltas[i].score != 0;
        assert init[i].score != 0;
      }
      WorthPositive(init, all);
    }
  }

  lemma {:induction false} NoneOf(pool: nat, worth: nat, all: nat)
    requires all > 0
    ensures worth == 0 ==> pool * worth / all == 0
  {
  }

  /** The distinct miners' scores sum to the worth of the block. */
  lemma {:induction false} ScoreIsWorth(deltas: seq<DeltaTx>)
    ensures ScoreOfAll(Miners(deltas), MinerWeights(deltas, deltas)) == WorthOfAll(Flat(deltas), deltas)
  {
    var weights, miners := MinerWeights(deltas, deltas), Miners(deltas);
    var keys := set a | a in miners;
    WeightsAreWorth(deltas, deltas);
    assert keys == weights.Keys;
    WeightsTotal(weights, keys);
    assert Restrict(weights, keys) == weights;
  }

  lemma {:induction false} PartIs(pool: nat, worth: nat, all: nat, part: nat, paid: bool)
    requires all > 0 && (!paid ==> worth == 0) && part == if paid then pool * worth / all else 0
    ensures part == pool * worth / all
  {
    NoneOf(pool, worth, all);
  }

  lemma {:induction false} MinersPaid(deltas: seq<DeltaTx>, pool: nat, a: Addr)
    requires deltas != []
    ensures PaidTo(MinerPays(Miners(deltas), MinerWeights(deltas, deltas), pool), a) == MinerPart(deltas, pool, a)
  {
    var weights, all := MinerWeights(deltas, deltas), WorthOfAll(Flat(deltas), deltas);
    WeightsAreWorth(deltas, deltas);
    WeightIsWorth(deltas, deltas, a);
    ScoreIsWorth(deltas);
    WorthPositive(deltas, deltas);
    MinerShare(Miners(deltas), weights, pool, a);
    PartIs(pool, WorthOf(Flat(deltas), deltas, a), all,
      PaidTo(MinerPays(Miners(deltas), weights, pool), a), a in Miners(deltas));
  }

  // ---- the data ----

  /** The content has an active entry that carries weight. */
  ghost predicate Earning(registry: seq<Entry>, h: Content) {
    exists i :: 0 <= i < |registry| && registry[i].active && registry[i].weight > 0 && registry[i].dataHash == h
  }

  /** How many references of a delta earn. */
  ghost function Earners(registry: seq<Entry>, refs: seq<Content>): nat {
    if refs == [] then 0
    else Earners(registry, refs[..|refs| - 1]) + if Earning(registry, refs[|refs| - 1]) then 1 else 0
  }

  /** each, for every time the references name h. */
  ghost function Mentions(refs: seq<Content>, h: Content, each: nat): nat {
    if refs == [] then 0
    else Mentions(refs[..|refs| - 1], h, each) + if refs[|refs| - 1] == h then each else 0
  }

  /** A delta's worth, in ten-thousandths, split equally over its earning references; this is h's part. */
  ghost function CreditFrom(registry: seq<Entry>, flat: bool, d: DeltaTx, h: Content): nat {
    var n := Earners(registry, d.refs);
    if n == 0 || !Earning(registry, h) then 0 else Mentions(d.refs, h, Worth(flat, d) * 10_000 / n)
  }

  ghost function CreditOf(registry: seq<Entry>, flat: bool, deltas: seq<DeltaTx>, h: Content): nat {
    if deltas == [] then 0
    else CreditOf(registry, flat, deltas[..|deltas| - 1], h) + CreditFrom(registry, flat, deltas[|deltas| - 1], h)
  }

  lemma {:induction false} NamedAre(registry: seq<Entry>, refs: seq<Content>, h: Content, each: nat)
    ensures |Named(registry, refs)| == Earners(registry, refs)
    ensures Mentions(Named(registry, refs), h, each) == if Earning(registry, h) then Mentions(refs, h, each) else 0
  {
    if refs != [] {
      var n := |refs| - 1;
      NamedAre(registry, refs[..n], h, each);
      var named := Named(registry, refs);
      assert Earns(registry, refs[n]) <==> Earning(registry, refs[n]);
      if Earns(registry, refs[n]) {
        assert named[..|named| - 1] == Named(registry, refs[..n]) && named[|named| - 1] == refs[n];
      } else {
        assert named == Named(registry, refs[..n]);
      }
    }
  }

  lemma {:induction false} CreditsAdded(m: map<Content, nat>, named: seq<Content>, credit: nat, h: Content)
    ensures Get(AddCredits(m, named, credit), h) == Get(m, h) + Mentions(named, h, credit)
  {
    if named != [] { CreditsAdded(m, named[..|named| - 1], credit, h); }
  }

  lemma {:induction false} CreditIs(registry: seq<Entry>, all: seq<DeltaTx>, deltas: seq<DeltaTx>, h: Content)
    ensures Get(DataCredits(registry, all, deltas), h) == CreditOf(registry, Flat(all), deltas, h)
  {
    if deltas != [] {
      var d := deltas[|deltas| - 1];
      var named := Named(registry, d.refs);
      CreditIs(registry, all, deltas[..|deltas| - 1], h);
      FlatIsZeroSum(all);
      NamedAre(registry, d.refs, h, 0);
      if named != [] {
        var each := Quotient(Effective(all, d) * 10_000, |named|);
        QuotientIs(Effective(all, d) * 10_000, |named|);
        CreditsAdded(DataCredits(registry, all, deltas[..|deltas| - 1]), named, each, h);
        NamedAre(registry, d.refs, h, each);
      }
    }
  }

  /** The contents that a block's deltas credit. */
  ghost function Credited(registry: seq<Entry>, deltas: seq<DeltaTx>): set<Content> {
    set i | 0 <= i < |registry| && CreditOf(registry, Flat(deltas), deltas, registry[i].dataHash) > 0
      :: registry[i].dataHash
  }

  ghost function CreditsOf(registry: seq<Entry>, deltas: seq<DeltaTx>): map<Content, nat> {
    map h | h in Credited(registry, deltas) :: CreditOf(registry, Flat(deltas), deltas, h)
  }

  /** The newest active entry for the content belongs to a. */
  ghost predicate Owned(registry: seq<Entry>, h: Content, a: Addr) {
    exists i :: 0 <= i < |registry| && Newest(registry, h, i) && registry[i].owner == a
  }

  ghost predicate Newest(registry: seq<Entry>, h: Content, i: nat)
    requires i < |registry|
  {
    && registry[i].active && registry[i].dataHash == h
    && forall j :: i < j < |registry| ==> !(registry[j].active && registry[j].dataHash == h)
  }

  /** What a pool gives an account for each credited content it owns. */
  ghost function OwnerParts(registry: seq<Entry>, deltas: seq<DeltaTx>, pool: nat, a: Addr): map<Content, nat> {
    var credits := CreditsOf(registry, deltas);
    map h | h in credits && Owned(registry, h, a) :: PartOf(pool, credits[h], MapSum(credits))
  }

  /** pool * credit / all, rounded down (PartIsFloor). */
  ghost function PartOf(pool: nat, credit: nat, all: nat): nat {
    if all == 0 then 0 else Quotient(Product(pool, credit), all)
  }

  lemma {:induction false} PartIsFloor(pool: nat, credit: nat, all: nat)
    requires all > 0
    ensures PartOf(pool, credit, all) == pool * credit / all
  {
    ShareIsQuotient(pool, credit, all);
  }

  lemma {:induction false} BackingNewest(registry: seq<Entry>, h: Content)
    ensures Backed(registry, h) ==> Newest(registry, h, Backing(registry, h))
    ensures !Backed(registry, h) ==>
      forall j :: 0 <= j < |registry| ==> !(registry[j].active && registry[j].dataHash == h)
  {
    if registry != [] {
      var n := |registry| - 1;
      var init := registry[..n];
      BackingNewest(init, h);
      if !(registry[n].active && registry[n].dataHash == h) {
        if Backed(init, h) {
          var i := Backing(init, h);
          forall j | i < j < |registry| ensures !(registry[j].active && registry[j].dataHash == h) {
            if j < n { assert registry[j] == init[j]; }
          }
        } else {
          forall j | 0 <= j < |registry| ensures !(registry[j].active && registry[j].dataHash == h) {
            if j < n { assert registry[j] == init[j]; }
          }
        }
      }
    }
  }

  /** The content has an active entry. */
  ghost predicate Present(registry: seq<Entry>, h: Content) {
    exists i :: 0 <= i < |registry| && registry[i].active && registry[i].dataHash == h
  }

  lemma {:induction false} BackedIs(registry: seq<Entry>, h: Content)
    ensures Backed(registry, h) <==> Present(registry, h)
  {
    BackingNewest(registry, h);
  }

  /** A block's provenance holds exactly when every delta names some content with an active entry. */
  lemma {:induction false} ProvenanceIs(registry: seq<Entry>, deltas: seq<DeltaTx>)
    ensures Provenance(registry, deltas)
      <==> forall d :: d in deltas ==> exists r :: r in d.refs && Present(registry, r)
  {
    forall r ensures Backed(registry, r) <==> Present(registry, r) { BackedIs(registry, r); }
  }

  lemma {:induction false} OwnedIs(registry: seq<Entry>, h: Content, a: Addr)
    requires Backed(registry, h)
    ensures Owned(registry, h, a) <==> registry[Backing(registry, h)].owner == a
  {
    BackingNewest(registry, h);
    var k := Backing(registry, h);
    forall i | 0 <= i < |registry| && Newest(registry, h, i) ensures i == k {
      assert !(i < k) && !(k < i);
    }
  }

  lemma {:induction false} CreditEarns(registry: seq<Entry>, flat: bool, deltas: seq<DeltaTx>, h: Content)
    requires CreditOf(registry, flat, deltas, h) > 0
    ensures Earning(registry, h)
  {
    if CreditFrom(registry, flat, deltas[|deltas| - 1], h) == 0 {
      CreditEarns(registry, flat, deltas[..|deltas| - 1], h);
    }
  }

  /** The contents that are paid are those credited. */
  lemma {:induction false} PaidIsCredited(registry: seq<Entry>, deltas: seq<DeltaTx>)
    ensures Paid(registry, DataCredits(registry, deltas, deltas)) == Credited(registry, deltas)
  {
    var credits := DataCredits(registry, deltas, deltas);
    forall h ensures h in Paid(registry, credits) <==> h in Credited(registry, deltas) {
      CreditIs(registry, deltas, deltas, h);
      BackingNewest(registry, h);
      if CreditOf(registry, Flat(deltas), deltas, h) > 0 { CreditEarns(registry, Flat(deltas), deltas, h); }
    }
  }

  lemma {:induction false} PaidToFront(p: Pay, pays: seq<Pay>, a: Addr)
    ensures PaidTo([p] + pays, a) == (if p.who == a then p.amount else 0) + PaidTo(pays, a)
    decreases |pays|
  {
    var all := [p] + pays;
    if pays == [] {
      assert all[..0] == [];
    } else {
      assert all[..|all| - 1] == [p] + pays[..|pays| - 1];
      PaidToFront(p, pays[..|pays| - 1], a);
    }
  }

  /** The parts of the contents in keys. */
  ghost function PartsIn(
    registry: seq<Entry>, credits: map<Content, nat>, keys: set<Content>, pool: nat, all: nat, a: Addr)
    : map<Content, nat>
  {
    map h | h in keys && Owned(registry, h, a) :: PartOf(pool, Get(credits, h), all)
  }

  lemma {:induction false} SharesFront(
    registry: seq<Entry>, credits: map<Content, nat>, k: Content, keys: seq<Content>, pool: nat, all: nat)
    requires all > 0 && Backed(registry, k) && forall i :: 0 <= i < |keys| ==> Backed(registry, keys[i])
    ensures forall i :: 0 <= i < |[k] + keys| ==> Backed(registry, ([k] + keys)[i])
    ensures Shares(Owners(registry, [k] + keys), WeightsOf([k] + keys, credits), pool, all)
      == [Pay(registry[Backing(registry, k)].owner, PartOf(pool, Get(credits, k), all))]
         + Shares(Owners(registry, keys), WeightsOf(keys, credits), pool, all)
  {
  }

  lemma {:induction false} PartsWithout(
    registry: seq<Entry>, credits: map<Content, nat>, keys: set<Content>, k: Content, pool: nat, all: nat, a: Addr)
    requires k in keys
    ensures MapSum(PartsIn(registry, credits, keys, pool, all, a))
      == (if Owned(registry, k, a) then PartOf(pool, Get(credits, k), all) else 0)
         + MapSum(PartsIn(registry, credits, keys - {k}, pool, all, a))
  {
    var parts := PartsIn(registry, credits, keys, pool, all, a);
    assert PartsIn(registry, credits, keys - {k}, pool, all, a) == parts - {k};
    if k in parts { SumRemove(parts, k); } else { assert parts - {k} == parts; }
  }

  lemma {:induction false} OwnersPaid(
    registry: seq<Entry>, credits: map<Content, nat>, keys: set<Content>, pool: nat, all: nat, a: Addr)
    requires all > 0 && forall h :: h in keys ==> Backed(registry, h)
    ensures forall i :: 0 <= i < |Ascending(keys)| ==> Backed(registry, Ascending(keys)[i])
    ensures PaidTo(Shares(Owners(registry, Ascending(keys)), WeightsOf(Ascending(keys), credits), pool, all), a)
      == MapSum(PartsIn(registry, credits, keys, pool, all, a))
    decreases keys
  {
    AscendingLists(keys);
    if keys == {} {
      assert PartsIn(registry, credits, keys, pool, all, a) == map[];
    } else {
      var k := Least(keys);
      var rest := Ascending(keys - {k});
      OwnersPaid(registry, credits, keys - {k}, pool, all, a);
      assert Ascending(keys) == [k] + rest;
      SharesFront(registry, credits, k, rest, pool, all);
      PaidToFront(Pay(registry[Backing(registry, k)].owner, PartOf(pool, Get(credits, k), all)),
        Shares(Owners(registry, rest), WeightsOf(rest, credits), pool, all), a);
      OwnedIs(registry, k, a);
      PartsWithout(registry, credits, keys, k, pool, all, a);
    }
  }

  lemma {:induction false} PositiveSum(m: map<Content, nat>, k: Content)
    requires k in m && m[k] > 0
    ensures MapSum(m) > 0
  {
    SumRemove(m, k);
  }

  lemma {:induction false} DataPaysParts(registry: seq<Entry>, credits: map<Content, nat>, pool: nat, all: nat, a: Addr)
    requires all > 0 && all == SumSeq(WeightsOf(Ascending(Paid(registry, credits)), credits))
    ensures PaidTo(DataPays(registry, credits, pool), a)
      == MapSum(PartsIn(registry, credits, Paid(registry, credits), pool, all, a))
  {
    OwnersPaid(registry, credits, Paid(registry, credits), pool, all, a);
  }

  lemma {:induction false} PartsAre(
    registry: seq<Entry>, deltas: seq<DeltaTx>, credits: map<Content, nat>, pool: nat, all: nat, a: Addr)
    requires forall h :: Get(credits, h) == CreditOf(registry, Flat(deltas), deltas, h)
    requires all == MapSum(CreditsOf(registry, deltas))
    ensures PartsIn(registry, credits, Credited(registry, deltas), pool, all, a)
      == OwnerParts(registry, deltas, pool, a)
  {
  }

  lemma {:induction false} CreditsTotal(registry: seq<Entry>, deltas: seq<DeltaTx>, credits: map<Content, nat>)
    requires credits == DataCredits(registry, deltas, deltas) && Credited(registry, deltas) != {}
    ensures forall h :: Get(credits, h) == CreditOf(registry, Flat(deltas), deltas, h)
    ensures SumSeq(WeightsOf(Ascending(Credited(registry, deltas)), credits)) == MapSum(CreditsOf(registry, deltas)) > 0
  {
    var keys, mine := Credited(registry, deltas), CreditsOf(registry, deltas);
    forall h ensures Get(credits, h) == CreditOf(registry, Flat(deltas), deltas, h) {
      CreditIs(registry, deltas, deltas, h);
    }
    WeightsTotal(credits, keys);
    assert Restrict(credits, keys) == mine;
    var h :| h in keys;
    PositiveSum(mine, h);
  }

  /** The data pool, account by account, when some content is credited. */
  lemma {:induction false} DataPaid(registry: seq<Entry>, deltas: seq<DeltaTx>, pool: nat, a: Addr)
    requires Credited(registry, deltas) != {}
    ensures PaidTo(DataPays(registry, DataCredits(registry, deltas, deltas), pool), a)
      == MapSum(OwnerParts(registry, deltas, pool, a))
  {
    var credits, all := DataCredits(registry, deltas, deltas), MapSum(CreditsOf(registry, deltas));
    PaidIsCredited(registry, deltas);
    CreditsTotal(registry, deltas, credits);
    DataPaysParts(registry, credits, pool, all, a);
    PartsAre(registry, deltas, credits, pool, all, a);
  }

  // ---- the whole reward ----

  ghost function PartIf(who: Option<Addr>, a: Addr, amount: nat): nat { if who == Some(a) then amount else 0 }

  /**
   * What the data part of a reward gives an account: by credit to the owners, the
   * fees included, or else the bare cut to the genesis contributor.
   */
  ghost function OwnerPart(registry: seq<Entry>, b: BlockBody, cut: nat, pool: nat, a: Addr): nat {
    if Credited(registry, b.deltas) != {} then MapSum(OwnerParts(registry, b.deltas, pool, a))
    else PartIf(b.contributor, a, cut)
  }

  lemma {:induction false} PaidToAppend(x: seq<Pay>, y: seq<Pay>, a: Addr)
    ensures PaidTo(x + y, a) == PaidTo(x, a) + PaidTo(y, a)
    decreases |y|
  {
    if y == [] {
      assert x + y == x;
    } else {
      PaidToAppend(x, y[..|y| - 1], a);
      assert (x + y)[..|x + y| - 1] == x + y[..|y| - 1];
    }
  }

  lemma {:induction false} OnePaid(who: Option<Addr>, amount: nat, a: Addr)
    ensures PaidTo(ProposerPays(who, amount), a) == PartIf(who, a, amount)
  {
    var pays := ProposerPays(who, amount);
    if who.Some? { assert pays[..0] == []; }
  }

  lemma {:induction false} ThreePaid(x: seq<Pay>, y: seq<Pay>, z: seq<Pay>, a: Addr)
    ensures PaidTo(x + y + z, a) == PaidTo(x, a) + PaidTo(y, a) + PaidTo(z, a)
  {
    PaidToAppend(x + y, z, a);
    PaidToAppend(x, y, a);
  }

  lemma {:induction false} OwnersList(
    registry: seq<Entry>, b: BlockBody, p: Payees, credits: map<Content, nat>, pool: nat)
    requires p == BlockPayees(registry, b) && credits == DataCredits(registry, b.deltas, b.deltas)
    ensures p.anyOwner <==> Paid(registry, credits) != {}
    ensures p.owners(pool)
      == if p.anyOwner then DataPays(registry, credits, pool) else ProposerPays(b.contributor, pool)
  {
  }

  lemma {:induction false} OwnersCut(
    l: Ledger, b: BlockBody, cut: nat, pool: nat, a: Addr, p: Payees, credits: map<Content, nat>)
    returns (pays: seq<Pay>)
    requires p == BlockPayees(l.registry, b) && pool == cut + l.feeData
    requires credits == DataCredits(l.registry, b.deltas, b.deltas)
    ensures p.anyOwner <==> Credited(l.registry, b.deltas) != {}
    ensures pays == p.owners(if p.anyOwner then pool else cut)
    ensures PaidTo(pays, a) == OwnerPart(l.registry, b, cut, pool, a)
  {
    PaidIsCredited(l.registry, b.deltas);
    OwnersList(l.registry, b, p, credits, if p.anyOwner then pool else cut);
    if Credited(l.registry, b.deltas) != {} {
      pays := DataPays(l.registry, credits, pool);
      DataPaid(l.registry, b.deltas, pool, a);
    } else {
      pays := ProposerPays(b.contributor, cut);
      OnePaid(b.contributor, cut, a);
    }
  }

  lemma {:induction false} MinersCut(l: Ledger, b: BlockBody, cut: nat, pool: nat, a: Addr, p: Payees)
    returns (pays: seq<Pay>)
    requires p == BlockPayees(l.registry, b) && pool == cut + l.feeTrain
    ensures p.anyMiner <==> b.deltas != []
    ensures pays == p.miners(if p.anyMiner then pool else cut)
    ensures PaidTo(pays, a) == MinerPart(b.deltas, pool, a)
  {
    pays := [];
    if b.deltas != [] {
      pays := MinerPays(Miners(b.deltas), MinerWeights(b.deltas, b.deltas), pool);
      MinersPaid(b.deltas, pool, a);
    }
  }

  /**
   * The reward of a block, for every account: seven tenths of the emission and the
   * training fees by worth to the miners, a tenth to the proposer, two tenths and
   * the data fees by credit to the owners. A pool nobody can take is carried on.
   */
  lemma {:induction false} RewardIs(
    l: Ledger, height: nat, b: BlockBody, a: Addr, total: nat, minersCut: nat, proposerCut: nat, dataCut: nat,
    train: nat, data: nat)
    requires height > 0 && total == Mint(height)
    requires minersCut == total * 7_000 / 10_000 && proposerCut == total * 1_000 / 10_000
    requires dataCut == total * 2_000 / 10_000 && train == minersCut + l.feeTrain && data == dataCut + l.feeData
    ensures var m := Reward(l, height, BlockPayees(l.registry, b));
      && Get(m.balances, a) == Get(l.balances, a) + MinerPart(b.deltas, train, a)
           + PartIf(b.proposer, a, proposerCut) + OwnerPart(l.registry, b, dataCut, data, a)
      && m.feeTrain == (if b.deltas == [] then l.feeTrain else 0)
      && m.feeData == (if Credited(l.registry, b.deltas) == {} then l.feeData else 0)
      && m == l.(balances := m.balances, feeTrain := m.feeTrain, feeData := m.feeData)
  {
    var p := BlockPayees(l.registry, b);
    RewardCuts(l, height, p, total, minersCut, proposerCut, dataCut);
    CutsPay(l, b, minersCut, proposerCut, dataCut, train, data, p, a);
  }

  lemma {:induction false} RewardCuts(l: Ledger, height: nat, p: Payees, total: nat, x: nat, y: nat, z: nat)
    requires height > 0 && total == Mint(height)
    requires x == total * 7_000 / 10_000 && y == total * 1_000 / 10_000 && z == total * 2_000 / 10_000
    ensures Reward(l, height, p) == PayCuts(l, x, y, z, p)
  {
    MintIs(height);
    EmissionPositive(height);
  }

  /** Three payouts, what each gives the account being known. */
  lemma {:induction false} CutsGive(
    l: Ledger, x: nat, y: nat, z: nat, train: nat, data: nat, p: Payees, a: Addr,
    u: seq<Pay>, v: seq<Pay>, w: seq<Pay>)
    requires train == x + l.feeTrain && data == z + l.feeData
    requires u == p.miners(if p.anyMiner then train else x) && v == p.proposer(y)
    requires w == p.owners(if p.anyOwner then data else z)
    ensures var m := PayCuts(l, x, y, z, p);
      && Get(m.balances, a) == Get(l.balances, a) + PaidTo(u, a) + PaidTo(v, a) + PaidTo(w, a)
      && m.feeTrain == (if p.anyMiner then 0 else l.feeTrain) && m.feeData == (if p.anyOwner then 0 else l.feeData)
      && m == l.(balances := m.balances, feeTrain := m.feeTrain, feeData := m.feeData)
  {
    ThreePaid(u, v, w, a);
    CreditedAccount(l.balances, u + v + w, a);
  }

  lemma {:induction false} CutsPay(
    l: Ledger, b: BlockBody, x: nat, y: nat, z: nat, train: nat, data: nat, p: Payees, a: Addr)
    requires p == BlockPayees(l.registry, b) && train == x + l.feeTrain && data == z + l.feeData
    ensures var m := PayCuts(l, x, y, z, p);
      && Get(m.balances, a) == Get(l.balances, a)
           + MinerPart(b.deltas, train, a) + PartIf(b.proposer, a, y) + OwnerPart(l.registry, b, z, data, a)
      && m.feeTrain == (if b.deltas == [] then l.feeTrain else 0)
      && m.feeData == (if Credited(l.registry, b.deltas) == {} then l.feeData else 0)
      && m == l.(balances := m.balances, feeTrain := m.feeTrain, feeData := m.feeData)
  {
    var u := MinersCut(l, b, x, train, a, p);
    var v := ProposerCut(l, b, y, a, p);
    var w := OwnersCut(l, b, z, data, a, p, DataCredits(l.registry, b.deltas, b.deltas));
    CutsGive(l, x, y, z, train, data, p, a, u, v, w);
  }

  lemma {:induction false} ProposerCut(l: Ledger, b: BlockBody, cut: nat, a: Addr, p: Payees) returns (pays: seq<Pay>)
    requires p == BlockPayees(l.registry, b)
    ensures pays == p.proposer(cut) && PaidTo(pays, a) == PartIf(b.proposer, a, cut)
  {
    pays := ProposerPays(b.proposer, cut);
    OnePaid(b.proposer, cut, a);
  }
}
