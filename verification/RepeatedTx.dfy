/**
 * Why soundness asks for the page's own claimants: the verifier counts the
 * supplied transactions but does not compare them, so repeating one can hide a
 * claimant and convict an honest block.
 */
module RepeatedTx {
  import opened Aggregation
  import opened Merkle
  import opened Machine
  import opened Fraud

  /** The claimant of page 0, and another delta that claims only page 1. */
  const BUSY: Core := Core(2, 0, [1, 0], 2, 0, [0], [])
  const OTHER: Core := Core(1, 0, [0, 1], 1, 0, [1], [])
  const TABLE: seq<Span> := [Span(0, 1), Span(1, 2)]

  function Parent(): Head { Head(Origin, 0, Node(Leaf([0]), Leaf([0])), TABLE, multiset{}, 0) }

  /** An honest block: both pages move from 0 to 1. */
  function Honest(): Head { Head(Parent(), 1, Node(Leaf([1]), Leaf([1])), TABLE, multiset{OTHER, BUSY}, 2) }

  function Block(): seq<SignedTx> { [SignedTx(OTHER, true), SignedTx(BUSY, true)] }

  const LEAVES: seq<Digest> := [Leaf([1]), Leaf([1])]

  function Forged(): Evidence {
    Evidence(Honest(), Parent(), TABLE, LEAVES, 0, [OTHER, BUSY],
             [SignedTx(OTHER, true), SignedTx(OTHER, true)], map[], [0], [Step(R, Leaf([0]))])
  }

  lemma {:induction false} TableIsGood()
    ensures GoodTable(TABLE)
  {
  }

  lemma {:induction false} TheClaimants()
    ensures Claimants(AsTxs([OTHER, BUSY]), 0) == [AsTx(BUSY)] && Claimants(AsTxs([OTHER, BUSY]), 1) == [AsTx(OTHER)]
  {
    var txs := AsTxs([OTHER, BUSY]);
    assert txs == [AsTx(OTHER), AsTx(BUSY)] && txs[1..] == [AsTx(BUSY)] && txs[1..][1..] == [];
    assert Claimants(txs[1..], 0) == [AsTx(BUSY)] && Claimants(txs[1..], 1) == [];
  }

  lemma {:induction false} Moves(i: nat)
    requires i < 2
    ensures Delta(AsTxs([OTHER, BUSY]), TABLE, i) == 1
  {
    var txs := AsTxs([OTHER, BUSY]);
    TheClaimants();
    TableIsGood();
    PageOfUnique(TABLE, 2, i, i);
    assert Column(txs, i, i) == [1];
    TM.MeanOfOne(1);
  }

  lemma {:induction false} HonestMove()
    ensures Transition([0, 0], AsTxs([OTHER, BUSY]), TABLE) == [1, 1]
  {
    Moves(0);
    Moves(1);
  }

  lemma {:induction false} PairRoot(a: Digest, b: Digest)
    ensures Root([a, b]) == Node(a, b)
  {
    assert Up([a, b]) == [Node(a, b)];
  }

  lemma {:induction false} HonestIsTrue()
    ensures Truth(Honest(), [0, 0], LEAVES, [OTHER, BUSY]) && Provable(Honest(), Block())
  {
    TableIsGood();
    assert Slice([0, 0], TABLE[0]) == [0] && Slice([0, 0], TABLE[1]) == [0];
    assert Leaves([0, 0], TABLE) == [Leaf([0]), Leaf([0])];
    PairRoot(Leaf([0]), Leaf([0]));
    PairRoot(Leaf([1]), Leaf([1]));
    assert multiset([OTHER, BUSY]) == multiset{OTHER, BUSY};
  }

  lemma {:induction false} ForgedAnchored()
    ensures Anchored(Forged()) && Drawn(Forged())
  {
    var p := Forged();
    PairRoot(Leaf([1]), Leaf([1]));
    assert multiset(p.txids) == multiset{OTHER, BUSY};
    assert p.txids[0] == OTHER;
  }

  lemma {:induction false} ForgedBinds()
    ensures Binds(Forged()) && Claimants(AsTxs(Cores(Forged().txs)), 0) == []
  {
    var p := Forged();
    ForgedAnchored();
    assert Cores(p.txs) == [OTHER, OTHER];
    var txs := AsTxs(Cores(p.txs));
    assert txs[1..][1..] == [] && Claimants(txs[1..], 0) == [];
    assert p.path[1..] == [] && Climb(Leaf([0]), p.path) == Node(Leaf([0]), Leaf([0]));
  }

  lemma {:induction false} HonestPage()
    ensures GoodTable(TABLE) && HonestLeaf([0, 0], [OTHER, BUSY], TABLE, 0) == LEAVES[0]
  {
    TableIsGood();
    HonestMove();
    assert Slice([1, 1], TABLE[0]) == [1];
  }

  lemma {:induction false} ForgedSides()
    ensures HasSides(Forged().path, SidesOf(2, 0))
  {
    assert SidesOf(2, 0) == [R] + SidesOf(1, 0) && SidesOf(1, 0) == [];
  }

  /** Evidence without the page's claimants recomputes the parent's page. */
  lemma {:induction false} HiddenClaimants(p: Evidence, cores: seq<Core>)
    requires Binds(p) && InRange(p.model, p.pageId) && Claimants(AsTxs(Cores(p.txs)), p.pageId) == []
    requires Claimants(AsTxs(cores), p.pageId) != []
    ensures Recomputed(p) == p.parentPage && !SameClaimants(p, cores)
  {
    assert Claimants(AsTxs(cores), p.pageId)[0] in multiset(Claimants(AsTxs(cores), p.pageId));
  }

  lemma {:induction false} ForgedPage()
    ensures Binds(Forged()) && !SameClaimants(Forged(), [OTHER, BUSY])
    ensures Leaf(Recomputed(Forged())) != Forged().leaves[0]
  {
    var p := Forged();
    ForgedBinds();
    TheClaimants();
    HiddenClaimants(p, [OTHER, BUSY]);
  }

  /** An honest block that a prover's own evidence would clear, and a proof that convicts it. */
  lemma {:induction false} RepetitionConvictsHonestBlock()
    ensures Truth(Honest(), [0, 0], LEAVES, [OTHER, BUSY]) && Provable(Honest(), Block())
    ensures GoodTable(TABLE) && HonestLeaf([0, 0], [OTHER, BUSY], TABLE, 0) == LEAVES[0]
    ensures Binds(Forged()) && HasSides(Forged().path, SidesOf(2, 0)) && !SameClaimants(Forged(), [OTHER, BUSY])
    ensures Leaf(Recomputed(Forged())) != Forged().leaves[0]
  {
    HonestIsTrue();
    HonestPage();
    ForgedSides();
    ForgedPage();
  }
}
