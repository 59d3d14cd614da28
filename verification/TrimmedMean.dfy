/** The Byzantine-robust integer aggregation of rig/chain.py: sort, trim both ends, floor-average. */
module TrimmedMean {
  import opened Division
  import opened Int64

  function Sum(s: seq<int>): int {
    if s == [] then 0 else s[0] + Sum(s[1..])
  }

  /** The int64 accumulation of a core: every addition wraps. */
  function WrapSum(s: seq<int>): int64 {
    if s == [] then 0 else Add(WrapSum(s[..|s| - 1]), s[|s| - 1])
  }

  predicate IsSorted(s: seq<int>) {
    |s| <= 1 || (s[0] <= s[1] && IsSorted(s[1..]))
  }

  lemma {:induction false} SortedOrder(s: seq<int>, i: nat, j: nat)
    requires IsSorted(s) && i <= j < |s|
    ensures s[i] <= s[j]
  {
    if i > 0 {
      SortedOrder(s[1..], i - 1, j - 1);
    } else if j > 0 {
      SortedOrder(s[1..], 0, j - 1);
    }
  }

  function Insert(x: int, s: seq<int>): (r: seq<int>)
    requires IsSorted(s)
    ensures IsSorted(r) && multiset(r) == multiset(s) + multiset{x}
    ensures |r| == |s| + 1 && (r[0] == x || (s != [] && r[0] == s[0]))
  {
    if s == [] || x <= s[0] then assert ([x] + s)[1..] == s; [x] + s
    else
      var t := Insert(x, s[1..]);
      assert s == [s[0]] + s[1..] && ([s[0]] + t)[1..] == t;
      [s[0]] + t
  }

  function Sort(s: seq<int>): (r: seq<int>)
    ensures IsSorted(r) && multiset(r) == multiset(s) && |r| == |s|
  {
    if s == [] then []
    else
      assert s == [s[0]] + s[1..];
      Insert(s[0], Sort(s[1..]))
  }

  /** How many values are dropped at each end of k sorted values (trim fraction 0.2). */
  function Trim(k: nat): nat {
    if k >= 3 && k / 5 < 1 then 1 else k / 5
  }

  /** The values that survive trimming. */
  function Core(col: seq<int>): (r: seq<int>)
    requires col != []
    ensures r != []
  {
    var s := Sort(col);
    var lo := Trim(|col|);
    var hi := |col| - lo;
    if hi > lo then s[lo..hi] else s
  }

  /** One coordinate of trimmed_mean_int. */
  function TrimmedMean(col: seq<int>): int64
    requires col != []
  {
    FloorBetween(WrapSum(Core(col)), |Core(col)|, MIN, MAX);
    WrapSum(Core(col)) / |Core(col)|
  }

  /** Elementwise trimmed mean of equally long rows. */
  function ColumnAt(rows: seq<seq<int>>, i: nat): (c: seq<int>)
    requires forall j :: 0 <= j < |rows| ==> i < |rows[j]|
    ensures |c| == |rows|
  {
    seq(|rows|, j requires 0 <= j < |rows| => rows[j][i])
  }

  function TrimmedMeanRows(rows: seq<seq<int>>, n: nat): (w: seq<int64>)
    requires rows != [] && forall j :: 0 <= j < |rows| ==> |rows[j]| == n
    ensures |w| == n && forall i :: 0 <= i < n ==> w[i] == TrimmedMean(ColumnAt(rows, i))
  {
    seq(n, i requires 0 <= i < n => TrimmedMean(ColumnAt(rows, i)))
  }

  // ---- the wrapped sum is the true sum modulo 2^64 ----

  lemma {:induction false} SumSplit(s: seq<int>, t: seq<int>)
    ensures Sum(s + t) == Sum(s) + Sum(t)
  {
    if s == [] {
      assert s + t == t;
    } else {
      assert (s + t)[1..] == s[1..] + t;
      SumSplit(s[1..], t);
    }
  }

  lemma {:induction false} WrapSumIsWrappedSum(s: seq<int>)
    ensures WrapSum(s) == Wrap(Sum(s))
  {
    if s != [] {
      var init, last := s[..|s| - 1], s[|s| - 1];
      WrapSumIsWrappedSum(init);
      SumSplit(init, [last]);
      assert init + [last] == s;
      WrapAbsorbs(Sum(init), last);
    }
  }

  // ---- order does not matter ----

  lemma {:induction false} SameSize(a: seq<int>, b: seq<int>)
    requires multiset(a) == multiset(b)
    ensures |a| == |b|
  {
    assert |multiset(a)| == |a| && |multiset(b)| == |b|;
  }

  lemma {:induction false} Tail(a: seq<int>)
    requires a != []
    ensures multiset(a[1..]) == multiset(a) - multiset{a[0]}
    ensures IsSorted(a) ==> IsSorted(a[1..])
  {
    assert a == [a[0]] + a[1..];
  }

  lemma {:induction false} LeastFirst(a: seq<int>, v: int)
    requires IsSorted(a) && v in multiset(a)
    ensures a != [] && a[0] <= v
  {
    assert v in a;
    var i :| 0 <= i < |a| && a[i] == v;
    SortedOrder(a, 0, i);
  }

  lemma {:induction false} SameHead(a: seq<int>, b: seq<int>)
    requires IsSorted(a) && IsSorted(b) && multiset(a) == multiset(b) && a != [] && b != []
    ensures a[0] == b[0]
  {
    assert b[0] in multiset(a) && a[0] in multiset(b);
    LeastFirst(a, b[0]);
    LeastFirst(b, a[0]);
  }

  lemma {:induction false} SortedUnique(a: seq<int>, b: seq<int>)
    requires IsSorted(a) && IsSorted(b) && multiset(a) == multiset(b)
    ensures a == b
  {
    SameSize(a, b);
    if a != [] {
      assert a[0] == b[0] by { SameHead(a, b); }
      assert multiset(a[1..]) == multiset(b[1..]) && IsSorted(a[1..]) && IsSorted(b[1..]) by {
        Tail(a);
        Tail(b);
      }
      assert a[1..] == b[1..] by { SortedUnique(a[1..], b[1..]); }
      assert a == [a[0]] + a[1..] && b == [b[0]] + b[1..];
    }
  }

  /** The aggregate depends only on which values were contributed, never on their order. */
  lemma {:induction false} OrderIrrelevant(a: seq<int>, b: seq<int>)
    requires a != [] && b != [] && multiset(a) == multiset(b)
    ensures TrimmedMean(a) == TrimmedMean(b)
  {
    SameSize(a, b);
    SortedUnique(Sort(a), Sort(b));
    assert Core(a) == Core(b);
  }

  lemma {:induction false} MeanOfOne(x: int64)
    ensures TrimmedMean([x]) == x
  {
    assert [x][1..] == [] && Sort([x]) == [x];
    assert Core([x]) == [x] && [x][..0] == [];
    assert WrapSum([x]) == x;
  }

  // ---- an all-zero column aggregates to zero ----

  lemma {:induction false} WrapSumZero(s: seq<int>)
    requires forall i :: 0 <= i < |s| ==> s[i] == 0
    ensures WrapSum(s) == 0
  {
    if s != [] { WrapSumZero(s[..|s| - 1]); }
  }

  lemma {:induction false} ZeroColumn(col: seq<int>)
    requires col != [] && forall i :: 0 <= i < |col| ==> col[i] == 0
    ensures TrimmedMean(col) == 0
  {
    var s := Sort(col);
    forall i | 0 <= i < |s| ensures s[i] == 0 {
      assert s[i] in multiset(s);
      assert s[i] in multiset(col);
    }
    WrapSumZero(Core(col));
  }

  // ---- Byzantine robustness ----

  function CountBelow(s: seq<int>, m: int): nat {
    if s == [] then 0 else (if s[0] < m then 1 else 0) + CountBelow(s[1..], m)
  }

  function CountAbove(s: seq<int>, m: int): nat {
    if s == [] then 0 else (if s[0] > m then 1 else 0) + CountAbove(s[1..], m)
  }

  lemma {:induction false} InsertCounts(x: int, s: seq<int>, m: int)
    requires IsSorted(s)
    ensures CountBelow(Insert(x, s), m) == CountBelow(s, m) + if x < m then 1 else 0
    ensures CountAbove(Insert(x, s), m) == CountAbove(s, m) + if x > m then 1 else 0
  {
    if s == [] || x <= s[0] {
      assert ([x] + s)[1..] == s;
    } else {
      InsertCounts(x, s[1..], m);
      var t := Insert(x, s[1..]);
      assert ([s[0]] + t)[1..] == t;
    }
  }

  lemma {:induction false} SortCounts(s: seq<int>, m: int)
    ensures CountBelow(Sort(s), m) == CountBelow(s, m)
    ensures CountAbove(Sort(s), m) == CountAbove(s, m)
  {
    if s != [] {
      SortCounts(s[1..], m);
      InsertCounts(s[0], Sort(s[1..]), m);
    }
  }

  function From(bad: set<nat>, off: nat): set<nat> { set i | i in bad && off <= i }

  /** At most |bad| values can lie outside the honest interval. */
  lemma {:induction false} CountOutside(s: seq<int>, bad: set<nat>, off: nat, m: int, M: int)
    requires forall i :: 0 <= i < |s| && off + i !in bad ==> m <= s[i] <= M
    ensures CountBelow(s, m) <= |From(bad, off)| && CountAbove(s, M) <= |From(bad, off)|
    decreases |s|
  {
    if s != [] {
      var here, later := From(bad, off), From(bad, off + 1);
      assert forall i :: 0 <= i < |s[1..]| ==> s[1..][i] == s[1 + i];
      CountOutside(s[1..], bad, off + 1, m, M);
      assert off + 0 !in bad ==> m <= s[0] <= M;
      assert here == if off in bad then later + {off} else later;
    }
  }

  lemma {:induction false} LowPrefixCounts(s: seq<int>, j: nat, m: int)
    requires j <= |s| && forall i :: 0 <= i < j ==> s[i] < m
    ensures CountBelow(s, m) >= j
  {
    if j > 0 { LowPrefixCounts(s[1..], j - 1, m); }
  }

  lemma {:induction false} HighSuffixCounts(s: seq<int>, j: nat, m: int)
    requires j <= |s| && forall i :: |s| - j <= i < |s| ==> s[i] > m
    ensures CountAbove(s, m) >= j
  {
    if |s| > j {
      HighSuffixCounts(s[1..], j, m);
    } else if j > 0 {
      HighSuffixCounts(s[1..], j - 1, m);
    }
  }

  /** In sorted order, a value outside the interval has at least as many companions as values on its side. */
  lemma {:induction false} SortedBetween(s: seq<int>, lo: nat, i: nat, m: int, M: int)
    requires IsSorted(s) && lo <= i < |s| - lo && CountBelow(s, m) <= lo && CountAbove(s, M) <= lo
    ensures m <= s[i] <= M
  {
    if s[i] < m {
      forall j | 0 <= j <= i ensures s[j] < m { SortedOrder(s, j, i); }
      LowPrefixCounts(s, i + 1, m);
    }
    if s[i] > M {
      forall j | i <= j < |s| ensures s[j] > M { SortedOrder(s, i, j); }
      HighSuffixCounts(s, |s| - i, M);
    }
  }

  /** Every surviving value is bounded by the honest ones. */
  lemma {:induction false} CoreIsHonest(col: seq<int>, bad: set<nat>, m: int, M: int)
    requires |col| >= 3 && |bad| <= Trim(|col|)
    requires forall i :: 0 <= i < |col| && i !in bad ==> m <= col[i] <= M
    ensures |Core(col)| == |col| - 2 * Trim(|col|)
    ensures forall i :: 0 <= i < |Core(col)| ==> m <= Core(col)[i] <= M
  {
    var s, lo := Sort(col), Trim(|col|);
    assert bad == From(bad, 0);
    CountOutside(col, bad, 0, m, M);
    SortCounts(col, m);
    SortCounts(col, M);
    forall i | lo <= i < |col| - lo ensures m <= s[i] <= M { SortedBetween(s, lo, i, m, M); }
  }

  lemma {:induction false} SumBetween(s: seq<int>, m: int, M: int)
    requires forall i :: 0 <= i < |s| ==> m <= s[i] <= M
    ensures |s| * m <= Sum(s) <= |s| * M
  {
    if s != [] { SumBetween(s[1..], m, M); }
  }

  lemma {:induction false} FloorBetween(x: int, n: nat, m: int, M: int)
    requires n > 0 && n * m <= x <= n * M
    ensures m <= x / n <= M
  {
    var q := x / n;
    assert n * q <= x < n * (q + 1);
    if q < m { MulMonotone(n, q + 1, m); }
    if q > M { MulMonotone(n, M + 1, q); }
  }

  /**
   * With k >= 3 contributions of which at most max(1, k/5) are arbitrary, the
   * aggregate stays between the honest extremes. The only overflow hypothesis is
   * about the honest extremes: an adversary cannot make the accumulation wrap.
   */
  lemma {:induction false} ByzantineRobust(col: seq<int>, bad: set<nat>, m: int, M: int)
    requires |col| >= 3 && |bad| <= Trim(|col|)
    requires forall i :: 0 <= i < |col| && i !in bad ==> m <= col[i] <= M
    requires MIN <= (|col| - 2 * Trim(|col|)) * m
    requires (|col| - 2 * Trim(|col|)) * M <= MAX
    ensures m <= TrimmedMean(col) <= M
  {
    CoreIsHonest(col, bad, m, M);
    var core := Core(col);
    SumBetween(core, m, M);
    WrapSumIsWrappedSum(core);
    FloorBetween(Sum(core), |core|, m, M);
  }

  /** The same bound for a whole vector aggregate: the adversarial rows are the same at every coordinate. */
  lemma {:induction false} ByzantineRobustRows(
    rows: seq<seq<int>>, n: nat, bad: set<nat>, lows: seq<int>, highs: seq<int>)
    requires |rows| >= 3 && |bad| <= Trim(|rows|) && |lows| == |highs| == n
    requires forall j :: 0 <= j < |rows| ==> |rows[j]| == n
    requires forall j, i :: 0 <= j < |rows| && j !in bad && 0 <= i < n ==> lows[i] <= rows[j][i] <= highs[i]
    requires forall i :: 0 <= i < n ==> MIN <= (|rows| - 2 * Trim(|rows|)) * lows[i]
    requires forall i :: 0 <= i < n ==> (|rows| - 2 * Trim(|rows|)) * highs[i] <= MAX
    ensures forall i :: 0 <= i < n ==> lows[i] <= TrimmedMeanRows(rows, n)[i] <= highs[i]
  {
    forall i | 0 <= i < n ensures lows[i] <= TrimmedMeanRows(rows, n)[i] <= highs[i] {
      ByzantineRobust(ColumnAt(rows, i), bad, lows[i], highs[i]);
    }
  }
}
