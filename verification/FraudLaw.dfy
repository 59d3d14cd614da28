/** The leaf an honest block commits, from the committed transactions' own deltas. */
module FraudLaw {
  import opened Int64
  import opened Aggregation
  import opened Machine
  import opened Merkle
  import opened MeanLaw
  import opened Fraud

  /** The values at coordinate i of the committed deltas that claim the page. */
  ghost function Deltas(cores: seq<Core>, pid: nat, i: nat): multiset<int> {
    if cores == [] then multiset{}
    else
      var c := cores[|cores| - 1];
      Deltas(cores[..|cores| - 1], pid, i)
      + if pid !in c.pages then multiset{} else if i < |c.delta| then multiset{c.delta[i]} else multiset{0}
  }

  lemma {:induction false} ClaimedIsDeltas(cores: seq<Core>, pid: nat, i: nat)
    ensures MeanLaw.Claimed(AsTxs(cores), pid, i) == Deltas(cores, pid, i)
  {
    if cores != [] {
      assert AsTxs(cores)[..|cores| - 1] == AsTxs(cores[..|cores| - 1]);
      ClaimedIsDeltas(cores[..|cores| - 1], pid, i);
    }
  }

  /** Coordinate k of a leaf's page. */
  ghost predicate LeafHolds(d: Digest, k: nat, x: int) { d.Leaf? && k < |d.page| && d.page[k] == x }

  /**
   * Coordinate by coordinate, the honest leaf of a claimed page holds the parent's
   * weight moved by the floor average of the claimants' middle values.
   */
  lemma {:induction false} HonestLeafIs(
    w: seq<int64>, cores: seq<Core>, spans: seq<Span>, pid: nat, i: nat,
    low: seq<int>, mid: seq<int>, high: seq<int>, r: int) returns (t: int, x: int)
    requires GoodTable(spans) && |w| == EndOf(spans) && pid < |spans| && spans[pid].start <= i < spans[pid].end
    requires Deltas(cores, pid, i) != multiset{} && Splits(Deltas(cores, pid, i), low, mid, high)
    requires Residue(r, TM.Sum(mid))
    ensures |mid| >= 1 && FloorOf(r, |mid|, t) && i < |w| && Increased(w[i], t, x)
    ensures LeafHolds(HonestLeaf(w, cores, spans, pid), i - spans[pid].start, x)
  {
    ClaimedIsDeltas(cores, pid, i);
    x := LeafAt(w, cores, spans, pid, i);
    t := TransitionAdds(w, AsTxs(cores), spans, pid, i, low, mid, high, r);
  }

  lemma {:induction false} LeafAt(w: seq<int64>, cores: seq<Core>, spans: seq<Span>, pid: nat, i: nat)
    returns (x: int)
    requires GoodTable(spans) && |w| == EndOf(spans) && pid < |spans| && spans[pid].start <= i < spans[pid].end
    ensures i < |w| && x == Transition(w, AsTxs(cores), spans)[i]
    ensures LeafHolds(HonestLeaf(w, cores, spans, pid), i - spans[pid].start, x)
  {
    x := Transition(w, AsTxs(cores), spans)[i];
  }

  /** A page no committed transaction claims keeps its parent's leaf. */
  lemma {:induction false} UnclaimedLeafIs(w: seq<int64>, cores: seq<Core>, spans: seq<Span>, pid: nat)
    requires GoodTable(spans) && |w| == EndOf(spans) && pid < |spans|
    requires forall c :: c in cores ==> pid !in c.pages
    ensures HonestLeaf(w, cores, spans, pid) == Leaf(w[spans[pid].start..spans[pid].end])
  {
    var txs := AsTxs(cores);
    NoClaimants(txs, pid);
    PageStays(w, txs, spans, pid);
  }

  lemma {:induction false} NoClaimants(txs: seq<Tx>, pid: nat)
    requires forall i :: 0 <= i < |txs| ==> pid !in txs[i].pages
    ensures Claimants(txs, pid) == []
  {
    if txs != [] { NoClaimants(txs[1..], pid); }
  }
}
