/** The ledger does not depend on the order in which a block lists its account transactions. */
module CanonicalOrder {
  import opened Token

  ghost predicate Sorted(txs: seq<Tx>) { forall i, j :: 0 <= i < j < |txs| ==> Before(txs[i], txs[j]) }

  lemma {:induction false} InsertSorted(txs: seq<Tx>, t: Tx)
    requires Sorted(txs)
    ensures Sorted(InsertTx(txs, t))
    decreases |txs|
  {
    var r := InsertTx(txs, t);
    if txs == [] || Before(t, txs[0]) {
      assert r == [t] + txs;
      forall i, j | 0 <= i < j < |r| ensures Before(r[i], r[j]) {
        if i == 0 && j > 1 { assert Before(txs[0], txs[j - 1]); }
        if i > 0 { assert Before(txs[i - 1], txs[j - 1]); }
      }
    } else {
      var rest := InsertTx(txs[1..], t);
      InsertSorted(txs[1..], t);
      assert r == [txs[0]] + rest;
      forall i, j | 0 <= i < j < |r| ensures Before(r[i], r[j]) {
        if i == 0 {
          assert rest[j - 1] in multiset(rest) && multiset(rest) == multiset(txs[1..]) + multiset{t};
          if rest[j - 1] != t {
            assert rest[j - 1] in txs[1..];
            var k :| 0 <= k < |txs| - 1 && txs[1..][k] == rest[j - 1];
            assert txs[k + 1] == rest[j - 1];
          }
        }
      }
    }
  }

  /** By sender, then nonce, then id: each wallet's transactions apply in nonce order. */
  lemma {:induction false} CanonicalSorted(txs: seq<Tx>)
    ensures Sorted(Canonical(txs))
    decreases |txs|
  {
    if txs != [] {
      CanonicalSorted(txs[..|txs| - 1]);
      InsertSorted(Canonical(txs[..|txs| - 1]), txs[|txs| - 1]);
    }
  }

  /** Transaction ids identify transactions. */
  ghost predicate Identified(txs: seq<Tx>) {
    forall i, j :: 0 <= i < |txs| && 0 <= j < |txs| && txs[i].txid == txs[j].txid ==> txs[i] == txs[j]
  }

  lemma {:induction false} SortedFirst(a: seq<Tx>, b: seq<Tx>)
    requires Sorted(a) && Sorted(b) && multiset(a) == multiset(b) && a != [] && b != [] && Identified(a)
    ensures a[0] == b[0]
  {
    assert a[0] in multiset(b) && b[0] in multiset(a);
    var i :| 0 <= i < |b| && b[i] == a[0];
    var j :| 0 <= j < |a| && a[j] == b[0];
    if i > 0 && j > 0 { assert Before(b[0], b[i]) && Before(a[0], a[j]); }
  }

  lemma {:induction false} SortedTail(a: seq<Tx>)
    requires Sorted(a) && a != []
    ensures Sorted(a[1..]) && multiset(a[1..]) == multiset(a) - multiset{a[0]}
    ensures Identified(a) ==> Identified(a[1..])
  {
    assert a == [a[0]] + a[1..];
  }

  lemma {:induction false} SortedUnique(a: seq<Tx>, b: seq<Tx>)
    requires Sorted(a) && Sorted(b) && multiset(a) == multiset(b) && Identified(a)
    ensures a == b
    decreases |a|
  {
    assert |a| == |multiset(a)| == |b|;
    if a != [] {
      SortedFirst(a, b);
      SortedTail(a);
      SortedTail(b);
      SortedUnique(a[1..], b[1..]);
      assert a == [a[0]] + a[1..] && b == [b[0]] + b[1..];
    }
  }

  lemma {:induction false} IdentifiedPermutes(a: seq<Tx>, b: seq<Tx>)
    requires multiset(a) == multiset(b) && Identified(a)
    ensures Identified(b)
  {
    forall i, j | 0 <= i < |b| && 0 <= j < |b| && b[i].txid == b[j].txid ensures b[i] == b[j] {
      assert b[i] in multiset(a) && b[j] in multiset(a);
      assert b[i] in a && b[j] in a;
    }
  }

  lemma {:induction false} CanonicalUnique(a: seq<Tx>, b: seq<Tx>)
    requires multiset(a) == multiset(b) && Identified(a)
    ensures Canonical(a) == Canonical(b)
  {
    CanonicalSorted(a);
    CanonicalSorted(b);
    IdentifiedPermutes(a, Canonical(a));
    SortedUnique(Canonical(a), Canonical(b));
  }

  /** apply_ledger sees the transaction set, not its listing. */
  lemma {:induction false} ListingIrrelevant(l: Ledger, b: BlockBody, txs: seq<Tx>, height: nat)
    requires multiset(txs) == multiset(b.txs) && Identified(b.txs)
    ensures ApplyBlock(l, b.(txs := txs), height) == ApplyBlock(l, b, height)
  {
    CanonicalUnique(b.txs, txs);
  }
}
