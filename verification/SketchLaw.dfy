/** How a delta's influence sketch accrues onto the corpora it names, entry by entry. */
module SketchLaw {
  import opened Token
  import opened RewardLaw

  ghost predicate Distinct(refs: seq<Content>) { forall i, j :: 0 <= i < j < |refs| ==> refs[i] != refs[j] }

  /** Entry j is the newest active one for some reference. */
  ghost predicate NamedBy(registry: seq<Entry>, refs: seq<Content>, j: nat)
    requires j < |registry|
  {
    exists k :: 0 <= k < |refs| && Newest(registry, refs[k], j)
  }

  /** How many references have an active entry. */
  ghost function BackedCount(registry: seq<Entry>, refs: seq<Content>): nat {
    if refs == [] then 0
    else BackedCount(registry, refs[..|refs| - 1]) + (if Present(registry, refs[|refs| - 1]) then 1 else 0)
  }

  ghost function Clamp(x: int): int {
    if x > 0x7FFF_FFFF_FFFF_FFFF then 0x7FFF_FFFF_FFFF_FFFF
    else if x < -0x8000_0000_0000_0000 then -0x8000_0000_0000_0000
    else x
  }

  /** Component by component, ten thousand times the delta's sketch over n, rounded down and saturating. */
  ghost predicate Accrues(acc: seq<int>, sk: seq<int>, n: nat, out: seq<int>)
    requires n > 0
  {
    && |out| == (if acc == [] || |sk| <= |acc| then |sk| else |acc|)
    && forall i :: 0 <= i < |out| ==> out[i] == Clamp((if acc == [] then 0 else acc[i]) + sk[i] * 10_000 / n)
  }

  ghost predicate NoDup(idx: seq<nat>) { forall i, j :: 0 <= i < j < |idx| ==> idx[i] != idx[j] }

  function Start(acc: seq<int>, sk: seq<int>): seq<int> { if acc == [] then seq(|sk|, _ => 0) else acc }

  lemma {:induction false} BlendAccrues(acc: seq<int>, sk: seq<int>, n: nat)
    requires n > 0
    ensures Accrues(acc, sk, n, Blend(Start(acc, sk), sk, n))
  {
  }

  lemma {:induction false} SketchedAt(registry: seq<Entry>, idx: seq<nat>, sk: seq<int>, n: nat, j: nat)
    requires n > 0 && NoDup(idx) && j < |registry| && forall k :: 0 <= k < |idx| ==> idx[k] < |registry|
    ensures var e, f := registry[j], Sketched(registry, idx, sk, n)[j];
      f == if j in idx then e.(sketch := Blend(Start(e.sketch, sk), sk, n)) else e
  {
    if idx != [] {
      var init, last := idx[..|idx| - 1], idx[|idx| - 1];
      SketchedAt(registry, init, sk, n, j);
      assert idx == init + [last];
      SketchedLast(registry, idx, sk, n);
    }
  }

  lemma {:induction false} SketchedLast(registry: seq<Entry>, idx: seq<nat>, sk: seq<int>, n: nat)
    requires n > 0 && idx != [] && forall k :: 0 <= k < |idx| ==> idx[k] < |registry|
    ensures var r, i := Sketched(registry, idx[..|idx| - 1], sk, n), idx[|idx| - 1];
      Sketched(registry, idx, sk, n) == r[i := r[i].(sketch := Blend(Start(r[i].sketch, sk), sk, n))]
  {
  }

  lemma {:induction false} BackingAllIs(registry: seq<Entry>, refs: seq<Content>)
    requires Distinct(refs)
    ensures NoDup(BackingAll(registry, refs)) && |BackingAll(registry, refs)| == BackedCount(registry, refs)
    ensures forall j :: 0 <= j < |registry| ==> (j in BackingAll(registry, refs) <==> NamedBy(registry, refs, j))
  {
    if refs != [] {
      var n := |refs| - 1;
      var init, h := refs[..n], refs[n];
      BackingAllIs(registry, init);
      BackingNewest(registry, h);
      var idx, k := BackingAll(registry, init), Backing(registry, h);
      if Backed(registry, h) { NamedStep(registry, refs, k); }
      assert BackingAll(registry, refs) == if Backed(registry, h) then idx + [k] else idx;
      assert Backed(registry, h) ==> Newest(registry, h, k) && k !in idx;
      forall j | 0 <= j < |registry| ensures j in BackingAll(registry, refs) <==> NamedBy(registry, refs, j) {
        NamedStep(registry, refs, j);
        if Newest(registry, h, j) { OneNewest(registry, h, j); }
      }
    }
  }

  lemma {:induction false} NamedStep(registry: seq<Entry>, refs: seq<Content>, j: nat)
    requires refs != [] && j < |registry|
    ensures NamedBy(registry, refs, j)
      <==> NamedBy(registry, refs[..|refs| - 1], j) || Newest(registry, refs[|refs| - 1], j)
    ensures Distinct(refs) && Newest(registry, refs[|refs| - 1], j) ==> !NamedBy(registry, refs[..|refs| - 1], j)
  {
    var init := refs[..|refs| - 1];
    if k :| 0 <= k < |init| && Newest(registry, init[k], j) { assert Newest(registry, refs[k], j); }
    if k :| 0 <= k < |refs| && Newest(registry, refs[k], j) {
      if k < |init| { assert Newest(registry, init[k], j); }
    }
  }

  lemma {:induction false} OneNewest(registry: seq<Entry>, h: Content, j: nat)
    requires j < |registry| && Newest(registry, h, j)
    ensures Backed(registry, h) && Backing(registry, h) == j
  {
    BackingNewest(registry, h);
    var k := Backing(registry, h);
    assert !(j < k) && !(k < j);
  }

  /**
   * The last of a block's deltas, with distinct references: each entry it names
   * accrues its sketch, divided by the number it names; every other entry, and
   * every other field, stays. An all-zero sketch changes nothing.
   */
  lemma {:induction false} SketchIs(registry: seq<Entry>, deltas: seq<DeltaTx>, j: nat)
    requires deltas != [] && Distinct(deltas[|deltas| - 1].refs) && j < |registry|
    ensures var d, r := deltas[|deltas| - 1], Sketches(registry, deltas[..|deltas| - 1]);
      var f, n := Sketches(registry, deltas)[j], BackedCount(r, d.refs);
      && f.(sketch := r[j].sketch) == r[j]
      && (NamedBy(r, d.refs, j) ==> n > 0)
      && if NamedBy(r, d.refs, j) && exists x :: x in d.sketch && x != 0
         then Accrues(r[j].sketch, d.sketch, n, f.sketch)
         else f == r[j]
  {
    var d, r := deltas[|deltas| - 1], Sketches(registry, deltas[..|deltas| - 1]);
    var idx := BackingAll(r, d.refs);
    BackingAllIs(r, d.refs);
    if idx != [] {
      SketchedAt(r, idx, d.sketch, |idx|, j);
      BlendAccrues(r[j].sketch, d.sketch, |idx|);
    }
  }
}
