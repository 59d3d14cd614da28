/** Sorted iteration over a set of numbers. */
module Ordering {

  lemma {:induction false} HasLeast(s: set<nat>)
    requires s != {}
    ensures exists m :: m in s && forall x :: x in s ==> m <= x
  {
    var k :| k in s;
    LeastBelow(s, k);
  }

  lemma {:induction false} LeastBelow(s: set<nat>, k: nat)
    requires k in s
    ensures exists m :: m in s && forall x :: x in s ==> m <= x
  {
    if j :| j in s && j < k { LeastBelow(s, j); }
  }

  function Least(s: set<nat>): (m: nat)
    requires s != {}
    ensures m in s && forall x :: x in s ==> m <= x
  {
    HasLeast(s);
    var m :| m in s && forall x :: x in s ==> m <= x;
    m
  }

  function Ascending(s: set<nat>): seq<nat> {
    if s == {} then [] else
      var m := Least(s);
      [m] + Ascending(s - {m})
  }

  /** Exactly the members of s, each once, in ascending order. */
  lemma {:induction false} AscendingLists(s: set<nat>)
    ensures |Ascending(s)| == |s|
    ensures forall i :: 0 <= i < |Ascending(s)| ==> Ascending(s)[i] in s
    ensures forall x :: x in s ==> x in Ascending(s)
    ensures forall i, j :: 0 <= i < j < |Ascending(s)| ==> Ascending(s)[i] < Ascending(s)[j]
    decreases s
  {
    if s != {} {
      var m := Least(s);
      AscendingLists(s - {m});
      assert Ascending(s) == [m] + Ascending(s - {m});
    }
  }
}
