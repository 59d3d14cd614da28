/** The closed form of the emission schedule. */
module EmissionLaw {
  import opened Division
  import opened Token
  import opened LedgerConservation

  /** Nine exact halvings down to the tail. */
  lemma {:induction false} EpochHalves(e: nat)
    requires e < 9
    ensures Epoch(e) == 2 * Epoch(e + 1) && Epoch(e + 1) >= TAIL_REWARD
    ensures e == 8 ==> Epoch(e + 1) == TAIL_REWARD
  {
    assert Epoch(0) == 50_000_000_000 && Epoch(1) == 25_000_000_000 && Epoch(2) == 12_500_000_000;
    assert Epoch(3) == 6_250_000_000 && Epoch(4) == 3_125_000_000 && Epoch(5) == 1_562_500_000;
    assert Epoch(6) == 781_250_000 && Epoch(7) == 390_625_000;
    assert Epoch(8) == 195_312_500 && Epoch(9) == 97_656_250;
  }

  lemma {:induction false} EpochFloors(e: nat)
    requires e >= 9
    ensures Epoch(e) <= TAIL_REWARD
  {
    if e > 9 { EpochFloors(e - 1); } else { EpochHalves(8); }
  }

  /** The reward of block r of epoch e. */
  lemma {:induction false} EmissionAt(e: nat, r: nat)
    requires 1 <= r <= HALVING_BLOCKS
    ensures e <= 9 ==> Emission(e * HALVING_BLOCKS + r) == Epoch(e)
    ensures e >= 9 ==> Emission(e * HALVING_BLOCKS + r) == TAIL_REWARD
  {
    DivMod(e, HALVING_BLOCKS, r - 1);
    if 0 < e <= 9 { EpochHalves(e - 1); }
    if e == 9 { EpochHalves(8); }
    if e >= 9 { EpochFloors(Min(e, 62)); }
  }

  /** Within the halving epochs. */
  lemma {:induction false} MintedInEpoch(e: nat, r: nat)
    requires e <= 9 && r <= HALVING_BLOCKS
    ensures Minted(e * HALVING_BLOCKS + r) == HALVING_BLOCKS * (2 * BASE_REWARD - 2 * Epoch(e)) + r * Epoch(e)
    decreases e, r
  {
    if r > 0 {
      MintedInEpoch(e, r - 1);
      EmissionAt(e, r);
      assert r * Epoch(e) == (r - 1) * Epoch(e) + Epoch(e);
    } else if e > 0 {
      MintedInEpoch(e - 1, HALVING_BLOCKS);
      EpochHalves(e - 1);
      assert e * HALVING_BLOCKS == (e - 1) * HALVING_BLOCKS + HALVING_BLOCKS;
    }
  }

  /** After ten epochs: a fixed sum, plus the tail reward for every later block. */
  lemma {:induction false} MintedAfterTenEpochs(n: nat)
    requires n >= 10 * HALVING_BLOCKS
    ensures Minted(n)
      == HALVING_BLOCKS * (2 * BASE_REWARD - TAIL_REWARD) + (n - 10 * HALVING_BLOCKS) * TAIL_REWARD
  {
    if n == 10 * HALVING_BLOCKS {
      MintedInEpoch(9, HALVING_BLOCKS);
      EpochHalves(8);
    } else {
      var e, r := (n - 1) / HALVING_BLOCKS, (n - 1) % HALVING_BLOCKS;
      MintedAfterTenEpochs(n - 1);
      EmissionAt(e, r + 1);
      assert n == e * HALVING_BLOCKS + (r + 1);
    }
  }
}
