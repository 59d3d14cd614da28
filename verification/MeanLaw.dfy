/**
 * The trimmed mean is a mean: however a column is split into its least, middle
 * and greatest values, it is the floor average of the middle ones; and that is
 * what a block adds to every coordinate of a page.
 */
module MeanLaw {
  import opened Int64
  import opened TM = TrimmedMean
  import opened Aggregation

  /** How many of k values are dropped at each end: a fifth of them, at least one as soon as there are three. */
  ghost predicate Drops(k: nat, lo: nat) {
    if 3 <= k < 5 then lo == 1 else 5 * lo <= k < 5 * lo + 5
  }

  ghost predicate AllBelow(a: seq<int>, b: seq<int>) {
    forall i, j :: 0 <= i < |a| && 0 <= j < |b| ==> a[i] <= b[j]
  }

  /** The values are split into the dropped least, the middle, and the dropped greatest. */
  ghost predicate Splits(values: multiset<int>, low: seq<int>, mid: seq<int>, high: seq<int>) {
    && values == multiset(low) + multiset(mid) + multiset(high)
    && Drops(|values|, |low|) && |high| == |low|
    && AllBelow(low, mid) && AllBelow(mid, high) && AllBelow(low, high)
  }

  /** r is the int64 that is congruent to s modulo 2^64: s itself when nothing overflows. */
  ghost predicate Residue(r: int, s: int) {
    -0x8000_0000_0000_0000 <= r <= 0x7FFF_FFFF_FFFF_FFFF && (r - s) % 0x1_0000_0000_0000_0000 == 0
  }

  /** t is r / n, rounded down. */
  ghost predicate FloorOf(r: int, n: nat, t: int) { n * t <= r < n * t + n }

  lemma {:induction false} ResidueIsWrap(r: int, s: int)
    ensures Residue(r, s) <==> r == Wrap(s)
  {
  }

  lemma {:induction false} SumInsert(x: int, s: seq<int>)
    requires IsSorted(s)
    ensures Sum(Insert(x, s)) == x + Sum(s)
  {
    if s == [] || x <= s[0] {
      assert ([x] + s)[1..] == s;
    } else {
      SumInsert(x, s[1..]);
      assert ([s[0]] + Insert(x, s[1..]))[1..] == Insert(x, s[1..]);
    }
  }

  lemma {:induction false} SumSort(s: seq<int>)
    ensures Sum(Sort(s)) == Sum(s)
  {
    if s != [] {
      SumSort(s[1..]);
      SumInsert(s[0], Sort(s[1..]));
    }
  }

  lemma {:induction false} SumPermutes(a: seq<int>, b: seq<int>)
    requires multiset(a) == multiset(b)
    ensures Sum(a) == Sum(b)
  {
    SumSort(a);
    SumSort(b);
    SortedUnique(Sort(a), Sort(b));
  }

  lemma {:induction false} SortedConcat(a: seq<int>, b: seq<int>)
    requires IsSorted(a) && IsSorted(b) && AllBelow(a, b)
    ensures IsSorted(a + b)
  {
    var c := a + b;
    if a == [] {
      assert c == b;
    } else {
      assert c[1..] == a[1..] + b;
      assert AllBelow(a[1..], b);
      SortedConcat(a[1..], b);
      if |a| > 1 { assert c[1] == a[1]; } else if b != [] { assert c[1] == b[0]; }
    }
  }

  lemma {:induction false} SortBelow(a: seq<int>, b: seq<int>)
    requires AllBelow(a, b)
    ensures AllBelow(Sort(a), Sort(b))
  {
    forall i, j | 0 <= i < |a| && 0 <= j < |b| ensures Sort(a)[i] <= Sort(b)[j] {
      assert Sort(a)[i] in multiset(Sort(a)) && Sort(b)[j] in multiset(Sort(b));
      assert Sort(a)[i] in a && Sort(b)[j] in b;
    }
  }

  lemma {:induction false} TrimDrops(k: nat, lo: nat)
    requires k > 0
    ensures Drops(k, lo) <==> lo == Trim(k)
    ensures Drops(k, lo) ==> k - 2 * lo >= 1
  {
  }

  lemma {:induction false} Sizes(values: multiset<int>, low: seq<int>, mid: seq<int>, high: seq<int>)
    requires values == multiset(low) + multiset(mid) + multiset(high)
    ensures |values| == |low| + |mid| + |high|
  {
  }

  /** The survivors are the middle values, in order. */
  lemma {:induction false} CoreIsMiddle(col: seq<int>, low: seq<int>, mid: seq<int>, high: seq<int>)
    requires col != [] && Splits(multiset(col), low, mid, high)
    ensures Core(col) == Sort(mid) && |mid| == |col| - 2 * |low| >= 1
  {
    assert |multiset(col)| == |col|;
    Sizes(multiset(col), low, mid, high);
    TrimDrops(|col|, |low|);
    SortIsParts(col, low, mid, high);
    var a, b, c := Sort(low), Sort(mid), Sort(high);
    assert (a + b + c)[|low|..|col| - |low|] == b;
  }

  /** Sorting the parts sorts the whole. */
  lemma {:induction false} SortIsParts(col: seq<int>, low: seq<int>, mid: seq<int>, high: seq<int>)
    requires multiset(col) == multiset(low) + multiset(mid) + multiset(high)
    requires AllBelow(low, mid) && AllBelow(mid, high) && AllBelow(low, high)
    ensures Sort(col) == Sort(low) + Sort(mid) + Sort(high)
  {
    var a, b, c := Sort(low), Sort(mid), Sort(high);
    SortBelow(low, mid);
    SortBelow(mid, high);
    SortBelow(low, high);
    SortedConcat(a, b);
    assert AllBelow(a + b, c);
    SortedConcat(a + b, c);
    SortedUnique(Sort(col), a + b + c);
  }

  lemma {:induction false} FloorIs(x: int, n: nat, t: int)
    requires n > 0 && t == x / n
    ensures FloorOf(x, n, t)
  {
  }

  /** Of any split, the trimmed mean is the floor average of the middle values (their int64 sum, if that overflows). */
  lemma {:induction false} MeanIsMean(col: seq<int>, low: seq<int>, mid: seq<int>, high: seq<int>, r: int)
    requires col != [] && Splits(multiset(col), low, mid, high) && Residue(r, Sum(mid))
    ensures |mid| == |col| - 2 * |low| >= 1 && Sum(mid) == Sum(col) - Sum(low) - Sum(high)
    ensures FloorOf(r, |mid|, TM.TrimmedMean(col))
  {
    CoreIsMiddle(col, low, mid, high);
    SumPermutes(Sort(mid), mid);
    SumPermutes(col, low + mid + high);
    SumSplit(low + mid, high);
    SumSplit(low, mid);
    WrapSumIsWrappedSum(Core(col));
    ResidueIsWrap(r, Sum(mid));
    FloorIs(r, |mid|, TM.TrimmedMean(col));
  }

  /** Every column has a split. */
  lemma {:induction false} SplitOf(col: seq<int>) returns (low: seq<int>, mid: seq<int>, high: seq<int>)
    requires col != []
    ensures Splits(multiset(col), low, mid, high)
  {
    var s, lo := Sort(col), Trim(|col|);
    TrimDrops(|col|, lo);
    low, mid, high := s[..lo], s[lo..|s| - lo], s[|s| - lo..];
    ThreeParts(s, lo);
    assert |multiset(col)| == |col|;
    assert multiset(col) == multiset(low) + multiset(mid) + multiset(high);
  }

  lemma {:induction false} ThreeParts(s: seq<int>, lo: nat)
    requires IsSorted(s) && 2 * lo <= |s|
    ensures multiset(s) == multiset(s[..lo]) + multiset(s[lo..|s| - lo]) + multiset(s[|s| - lo..])
    ensures AllBelow(s[..lo], s[lo..|s| - lo]) && AllBelow(s[lo..|s| - lo], s[|s| - lo..])
    ensures AllBelow(s[..lo], s[|s| - lo..])
  {
    var low, mid, high := s[..lo], s[lo..|s| - lo], s[|s| - lo..];
    assert s == low + mid + high;
    forall i, j | 0 <= i < |low| && 0 <= j < |mid| ensures low[i] <= mid[j] { SortedOrder(s, i, lo + j); }
    forall i, j | 0 <= i < |mid| && 0 <= j < |high| ensures mid[i] <= high[j] {
      SortedOrder(s, lo + i, |s| - lo + j);
    }
    forall i, j | 0 <= i < |low| && 0 <= j < |high| ensures low[i] <= high[j] { SortedOrder(s, i, |s| - lo + j); }
  }

  // ---- what a block adds to a coordinate ----

  /** What a body holds at coordinate i. */
  ghost function ValueAt(body: Body, i: nat): int {
    match body
    case Dense(v) => if i < |v| then v[i] else 0
    case Coords(_, c) => if i in c then c[i] else 0
  }

  /** The values at coordinate i of the transactions that claim page p. */
  ghost function Claimed(txs: seq<Tx>, p: nat, i: nat): multiset<int> {
    if txs == [] then multiset{}
    else Claimed(txs[..|txs| - 1], p, i)
         + if p in txs[|txs| - 1].pages then multiset{ValueAt(txs[|txs| - 1].body, i)} else multiset{}
  }

  lemma {:induction false} ColumnIsClaimed(txs: seq<Tx>, p: nat, i: nat)
    ensures multiset(Column(txs, p, i)) == Claimed(txs, p, i)
  {
    if txs != [] {
      var init, last := txs[..|txs| - 1], txs[|txs| - 1];
      assert txs == init + [last];
      ColumnIsClaimed(init, p, i);
      ColumnConcat(init, [last], p, i);
      assert [last][1..] == [];
      assert Claimants([last], p) == if p in last.pages then [last] else [];
      assert Column([last], p, i) == if p in last.pages then [last.body.At(i)] else [];
    }
  }

  /** x, increased by t in int64. */
  ghost predicate Increased(x: int, t: int, y: int) { Residue(y, x + t) }

  /**
   * The per-page transition on a table that fits: a coordinate of a claimed page
   * moves by the floor average of its claimants' middle values.
   */
  lemma {:induction false} TransitionAdds(
    parent: seq<int64>, txs: seq<Tx>, spans: seq<Span>, p: nat, i: nat,
    low: seq<int>, mid: seq<int>, high: seq<int>, r: int) returns (t: int)
    requires Fits(spans, |parent|) && p < |spans| && spans[p].start <= i < spans[p].end && i < |parent|
    requires Claimed(txs, p, i) != multiset{} && Splits(Claimed(txs, p, i), low, mid, high) && Residue(r, Sum(mid))
    ensures |mid| >= 1 && FloorOf(r, |mid|, t) && Increased(parent[i], t, Transition(parent, txs, spans)[i])
  {
    ColumnIsClaimed(txs, p, i);
    t := DeltaIsMean(txs, spans, |parent|, p, i);
    MeanIsMean(Column(txs, p, i), low, mid, high, r);
    MovesByDelta(parent, txs, spans, i, t);
  }

  lemma {:induction false} MovesByDelta(parent: seq<int64>, txs: seq<Tx>, spans: seq<Span>, i: nat, t: int)
    requires i < |parent| && t == Delta(txs, spans, i)
    ensures Increased(parent[i], t, Transition(parent, txs, spans)[i])
  {
    ResidueIsWrap(Transition(parent, txs, spans)[i], parent[i] + t);
  }

  lemma {:induction false} DeltaIsMean(txs: seq<Tx>, spans: seq<Span>, dim: nat, p: nat, i: nat) returns (t: int)
    requires Fits(spans, dim) && p < |spans| && spans[p].start <= i < spans[p].end && Column(txs, p, i) != []
    ensures t == Delta(txs, spans, i) == TM.TrimmedMean(Column(txs, p, i))
  {
    PageOfUnique(spans, dim, p, i);
    t := Delta(txs, spans, i);
  }

  /** Coordinates of pages nobody claims, and of no page, stay. */
  lemma {:induction false} TransitionKeeps(parent: seq<int64>, txs: seq<Tx>, spans: seq<Span>, i: nat)
    requires Fits(spans, |parent|) && i < |parent|
    requires forall p :: 0 <= p < |spans| && spans[p].start <= i < spans[p].end ==> Claimed(txs, p, i) == multiset{}
    ensures Transition(parent, txs, spans)[i] == parent[i]
  {
    var p := PageOf(spans, i);
    if p < |spans| { ColumnIsClaimed(txs, p, i); }
    AddZero(parent[i]);
  }
}
