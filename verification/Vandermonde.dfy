/** Any k rows of the Vandermonde matrix of rig/da.py are independent: a polynomial has few roots. */
module Vandermonde {
  import opened Division
  import opened GaloisField
  import opened FieldLaws
  import opened LinearAlgebra

  function Pow(f: Field, t: Byte, n: nat): Byte { if n == 0 then ONE else f.times(t, Pow(f, t, n - 1)) }

  /** The polynomial with coefficients x, lowest first. */
  function Eval(f: Field, x: Row, t: Byte): Byte {
    if x == [] then ZERO else f.plus(x[0], f.times(t, Eval(f, x[1..], t)))
  }

  // ---- polynomial division ----

  function Quotient(f: Field, x: Row, r: Byte): (q: Row)
    ensures |q| == if |x| <= 1 then 0 else |x| - 1
  {
    if |x| <= 1 then [] else [Eval(f, x[1..], r)] + Quotient(f, x[1..], r)
  }

  lemma {:induction false} DivisionStep(f: Field, c: Byte, t: Byte, r: Byte, p: Byte, q: Byte, u: Byte)
    requires f.Laws() && f.plus(p, q) == f.times(f.plus(t, r), u)
    ensures f.plus(f.plus(c, f.times(t, p)), f.plus(c, f.times(r, q)))
      == f.times(f.plus(t, r), f.plus(q, f.times(t, u)))
  {
    var tp, tq, rq, d := f.times(t, p), f.times(t, q), f.times(r, q), f.plus(t, r);
    PlusExchange(f, c, tp, c, rq);
    PlusZero(f, c);
    PlusZero(f, f.plus(tp, rq));
    assert f.plus(f.plus(c, tp), f.plus(c, rq)) == f.plus(tp, rq);
    Distribute(f, d, q, f.times(t, u));
    Distribute(f, q, t, r);
    MulAssoc(f, d, t, u);
    MulComm(f, d, t);
    MulAssoc(f, t, d, u);
    Distribute(f, t, p, q);
    assert f.times(d, f.plus(q, f.times(t, u))) == f.plus(f.plus(tq, rq), f.plus(tp, tq));
    Collapse(f, tq, rq, tp);
  }

  lemma {:induction false} Collapse(f: Field, a: Byte, b: Byte, c: Byte)
    requires f.Laws()
    ensures f.plus(f.plus(a, b), f.plus(c, a)) == f.plus(c, b)
  {
    assert f.Sums(c, a, b) && f.Sums(f.plus(a, b), f.plus(c, a), a) && f.Sums(c, a, f.plus(a, b)) && f.Sums(a, a, b);
    PlusZero(f, a);
    PlusZero(f, b);
  }

  /** P(t) - P(r) = (t - r) Q(t). */
  lemma {:induction false} Divides(f: Field, x: Row, t: Byte, r: Byte)
    requires f.Laws()
    ensures f.plus(Eval(f, x, t), Eval(f, x, r)) == f.times(f.plus(t, r), Eval(f, Quotient(f, x, r), t))
    decreases |x|
  {
    PlusZero(f, f.plus(t, r));
    PlusZero(f, ZERO);
    if |x| == 1 {
      PlusZero(f, t);
      PlusZero(f, r);
      PlusZero(f, x[0]);
      assert x[1..] == [];
    } else if |x| > 1 {
      var rest := x[1..];
      Divides(f, rest, t, r);
      var q := Quotient(f, x, r);
      assert q[0] == Eval(f, rest, r) && q[1..] == Quotient(f, rest, r);
      DivisionStep(f, x[0], t, r, Eval(f, rest, t), Eval(f, rest, r), Eval(f, Quotient(f, rest, r), t));
    }
  }

  ghost predicate AllZero(x: Row) { forall i :: 0 <= i < |x| ==> x[i] == ZERO }

  /** A polynomial with zero quotient and a root is zero. */
  lemma {:induction false} ZeroQuotient(f: Field, x: Row, r: Byte)
    requires f.Laws() && Eval(f, x, r) == ZERO && AllZero(Quotient(f, x, r))
    ensures AllZero(x)
    decreases |x|
  {
    if |x| == 1 {
      assert x[1..] == [];
      PlusZero(f, r);
      PlusZero(f, x[0]);
    } else if |x| > 1 {
      var rest, q := x[1..], Quotient(f, x, r);
      assert q[0] == Eval(f, rest, r);
      forall i | 0 <= i < |Quotient(f, rest, r)| ensures Quotient(f, rest, r)[i] == ZERO {
        assert Quotient(f, rest, r)[i] == q[i + 1];
      }
      ZeroQuotient(f, rest, r);
      PlusZero(f, r);
      PlusZero(f, x[0]);
      forall i | 0 <= i < |x| ensures x[i] == ZERO {
        if i > 0 { assert x[i] == rest[i - 1]; }
      }
    }
  }

  ghost predicate Distinct(pts: Row) { forall i, j :: 0 <= i < j < |pts| ==> pts[i] != pts[j] }

  /** A polynomial with as many distinct roots as coefficients is zero. */
  lemma {:induction false} RootBound(f: Field, x: Row, pts: Row)
    requires f.Laws() && |pts| >= |x| && Distinct(pts)
    requires forall i :: 0 <= i < |pts| ==> Eval(f, x, pts[i]) == ZERO
    ensures AllZero(x)
    decreases |x|
  {
    if x != [] {
      var r, rest, q := pts[0], pts[1..], Quotient(f, x, pts[0]);
      forall i | 0 <= i < |rest| ensures Eval(f, q, rest[i]) == ZERO {
        assert rest[i] == pts[i + 1];
        Divides(f, x, rest[i], r);
        PlusZero(f, ZERO);
        if f.plus(rest[i], r) == ZERO { PlusCancel(f, rest[i], r); }
        ProductByLogs(f, f.plus(rest[i], r), Eval(f, q, rest[i]));
      }
      RootBound(f, q, rest);
      ZeroQuotient(f, x, r);
    }
  }

  // ---- the matrix ----

  /** Row i: the powers of the evaluation point i + 1, by table. */
  function VRow(f: Field, i: nat, k: nat): (r: Row)
    ensures |r| == k
  {
    seq(k, j requires 0 <= j < k => f.exp((f.log(ByteOf(i + 1)) * j) % 255))
  }

  lemma {:induction false} ExpMod(f: Field, n: nat)
    requires f.Laws()
    ensures f.exp(n % 255) == f.exp(n)
  {
    if n >= 255 {
      ExpMod(f, n - 255);
      AddDivisor(n - 255, 255);
      assert f.Powers(ZERO, 255, n - 255);
      MulOne(f, f.exp(n - 255));
    }
  }

  lemma {:induction false} ExpPow(f: Field, t: Byte, j: nat)
    requires f.Laws() && t != ZERO
    ensures f.exp(f.log(t) * j) == Pow(f, t, j)
  {
    assert f.Powers(t, 0, 0);
    if j > 0 {
      ExpPow(f, t, j - 1);
      assert f.log(t) * j == f.log(t) + f.log(t) * (j - 1);
      assert f.Powers(t, f.log(t), f.log(t) * (j - 1));
    }
  }

  lemma {:induction false} EvalSnoc(f: Field, x: Row, c: Byte, t: Byte)
    requires f.Laws()
    ensures Eval(f, x + [c], t) == f.plus(Eval(f, x, t), f.times(Pow(f, t, |x|), c))
  {
    if x == [] {
      assert ([c])[1..] == [] && x + [c] == [c];
      PlusZero(f, t);
      PlusZero(f, c);
      MulOne(f, c);
    } else {
      var rest := x[1..];
      assert (x + [c])[1..] == rest + [c];
      EvalSnoc(f, rest, c, t);
      Distribute(f, t, Eval(f, rest, t), f.times(Pow(f, t, |rest|), c));
      MulAssoc(f, t, Pow(f, t, |rest|), c);
      assert f.Sums(x[0], f.times(t, Eval(f, rest, t)), f.times(Pow(f, t, |x|), c));
    }
  }

  /** A Vandermonde row evaluates the polynomial at its point. */
  lemma {:induction false} DotIsEval(f: Field, i: nat, k: nat, x: Row, n: nat)
    requires f.Laws() && i < 255 && n <= k && n <= |x|
    ensures Dot(f, VRow(f, i, k), x, n) == Eval(f, x[..n], ByteOf(i + 1))
  {
    if n > 0 {
      var t := ByteOf(i + 1);
      DotIsEval(f, i, k, x, n - 1);
      PointNonzero(i);
      ExpMod(f, f.log(t) * (n - 1));
      ExpPow(f, t, n - 1);
      EvalSnoc(f, x[..n - 1], x[n - 1], t);
      assert x[..n] == x[..n - 1] + [x[n - 1]];
    }
  }

  lemma {:induction false} PointNonzero(i: nat)
    requires i < 255
    ensures ByteOf(i + 1) != ZERO
  {
    ValueOfByte(i + 1);
    ValueZero(ByteOf(i + 1));
  }

  lemma {:induction false} PointsDistinct(i: nat, j: nat)
    requires i < j < 255
    ensures ByteOf(i + 1) != ByteOf(j + 1)
  {
    ValueOfByte(i + 1);
    ValueOfByte(j + 1);
  }

  /** The chosen rows. */
  function Rows(f: Field, idx: seq<nat>, k: nat): (m: seq<Row>)
    ensures |m| == |idx| && forall j :: 0 <= j < |idx| ==> m[j] == VRow(f, idx[j], k)
  {
    seq(|idx|, j requires 0 <= j < |idx| => VRow(f, idx[j], k))
  }

  function Points(idx: seq<nat>): (pts: Row)
    ensures |pts| == |idx|
  {
    seq(|idx|, i requires 0 <= i < |idx| => ByteOf(idx[i] + 1))
  }

  ghost predicate Ascending(idx: seq<nat>) {
    && (forall i :: 0 <= i < |idx| ==> idx[i] < 255)
    && (forall i, j :: 0 <= i < j < |idx| ==> idx[i] < idx[j])
  }

  lemma {:induction false} DistinctPoints(idx: seq<nat>)
    requires Ascending(idx)
    ensures Distinct(Points(idx))
  {
    var pts := Points(idx);
    forall i, j | 0 <= i < j < |pts| ensures pts[i] != pts[j] { PointsDistinct(idx[i], idx[j]); }
  }

  lemma {:induction false} KilledIsRoot(f: Field, idx: seq<nat>, k: nat, x: Row, i: nat)
    requires f.Laws() && |x| == k && i < |idx| && idx[i] < 255 && Dot(f, VRow(f, idx[i], k), x, k) == ZERO
    ensures Eval(f, x, Points(idx)[i]) == ZERO
  {
    DotIsEval(f, idx[i], k, x, k);
    assert x[..k] == x;
  }

  /** No nonzero vector is killed by k distinct rows. */
  lemma {:induction false} Nonsingular(f: Field, idx: seq<nat>, k: nat, x: Row)
    requires f.Laws() && |idx| == k && |x| == k && Ascending(idx)
    requires Kills(f, Rows(f, idx, k), x, k)
    ensures !Nonzero(x)
  {
    var m := Rows(f, idx, k);
    DistinctPoints(idx);
    forall i | 0 <= i < k ensures Eval(f, x, Points(idx)[i]) == ZERO {
      assert Dot(f, m[i], x, k) == ZERO;
      KilledIsRoot(f, idx, k, x, i);
    }
    RootBound(f, x, Points(idx));
  }

  // ---- a polynomial with given roots ----

  /** c + (t + a) x(t), as coefficients. */
  function TimesRoot(f: Field, x: Row, a: Byte, c: Byte): (y: Row)
    ensures |y| == |x| + 1 && y[|x|] == if x == [] then c else x[|x| - 1]
    decreases |x|
  {
    if x == [] then [c] else [f.plus(c, f.times(a, x[0]))] + TimesRoot(f, x[1..], a, x[0])
  }

  lemma {:induction false} RootStep(f: Field, c: Byte, t: Byte, a: Byte, h: Byte, e: Byte)
    requires f.Laws()
    ensures f.plus(f.plus(c, f.times(a, h)), f.times(t, f.plus(h, f.times(f.plus(t, a), e))))
      == f.plus(c, f.times(f.plus(t, a), f.plus(h, f.times(t, e))))
  {
    var d, p, q := f.plus(t, a), f.times(a, h), f.times(t, h);
    var r := f.times(t, f.times(d, e));
    Distribute(f, t, h, f.times(d, e));
    assert f.times(t, f.plus(h, f.times(d, e))) == f.plus(q, r);
    Distribute(f, d, h, f.times(t, e));
    MulAssoc(f, d, t, e);
    MulComm(f, d, t);
    MulAssoc(f, t, d, e);
    MulComm(f, d, h);
    Distribute(f, h, t, a);
    MulComm(f, h, t);
    MulComm(f, h, a);
    assert f.times(d, f.plus(h, f.times(t, e))) == f.plus(f.plus(q, p), r);
    assert f.Sums(c, p, f.plus(q, r)) && f.Sums(p, q, r);
  }

  lemma {:induction false} EvalTimesRoot(f: Field, x: Row, a: Byte, c: Byte, t: Byte)
    requires f.Laws()
    ensures Eval(f, TimesRoot(f, x, a, c), t) == f.plus(c, f.times(f.plus(t, a), Eval(f, x, t)))
    decreases |x|
  {
    var y := TimesRoot(f, x, a, c);
    if x == [] {
      assert y[1..] == [];
      PlusZero(f, t);
      PlusZero(f, f.plus(t, a));
    } else {
      assert y[1..] == TimesRoot(f, x[1..], a, x[0]);
      EvalTimesRoot(f, x[1..], a, x[0], t);
      RootStep(f, c, t, a, x[0], Eval(f, x[1..], t));
    }
  }

  /** The monic polynomial whose roots are the points. */
  function Annihilator(f: Field, pts: Row): (x: Row)
    ensures |x| == |pts| + 1 && x[|pts|] == ONE
  {
    if pts == [] then [ONE] else TimesRoot(f, Annihilator(f, pts[1..]), pts[0], ZERO)
  }

  lemma {:induction false} Annihilates(f: Field, pts: Row, i: nat)
    requires f.Laws() && i < |pts|
    ensures Eval(f, Annihilator(f, pts), pts[i]) == ZERO
  {
    var rest := Annihilator(f, pts[1..]);
    EvalTimesRoot(f, rest, pts[0], ZERO, pts[i]);
    PlusZero(f, ZERO);
    if i == 0 {
      PlusZero(f, pts[0]);
      PlusZero(f, Eval(f, rest, pts[0]));
    } else {
      Annihilates(f, pts[1..], i - 1);
      PlusZero(f, f.plus(pts[i], pts[0]));
    }
  }

  lemma {:induction false} DotVanishes(f: Field, a: Row, y: Row, n: nat)
    requires f.Laws() && n <= |a| && n <= |y| && forall i :: 0 <= i < n ==> a[i] == ZERO || y[i] == ZERO
    ensures Dot(f, a, y, n) == ZERO
  {
    if n > 0 {
      DotVanishes(f, a, y, n - 1);
      PlusZero(f, a[n - 1]);
      PlusZero(f, y[n - 1]);
      PlusZero(f, ZERO);
    }
  }

  function Others(idx: seq<nat>, j: nat): (r: seq<nat>)
    requires j < |idx|
    ensures |r| == |idx| - 1
    ensures forall i :: 0 <= i < |idx| && i != j ==> r[if i < j then i else i - 1] == idx[i]
  {
    idx[..j] + idx[j + 1..]
  }

  lemma {:induction false} RootIsKilled(f: Field, i: nat, k: nat, x: Row)
    requires f.Laws() && i < 255 && |x| == k && Eval(f, x, ByteOf(i + 1)) == ZERO
    ensures Dot(f, VRow(f, i, k), x, k) == ZERO
  {
    DotIsEval(f, i, k, x, k);
    assert x[..k] == x;
  }

  /** At the other chosen rows the annihilator is zero. */
  lemma {:induction false} OthersKilled(f: Field, idx: seq<nat>, pts: Row, i: nat, j: nat)
    requires f.Laws() && i < |idx| && j < |idx| && i != j && pts == Points(Others(idx, j))
    ensures Eval(f, Annihilator(f, pts), ByteOf(idx[i] + 1)) == ZERO
  {
    var o := if i < j then i else i - 1;
    assert pts[o] == ByteOf(idx[i] + 1);
    Annihilates(f, pts, o);
  }

  /** Every chosen shard matters: the last row of the inverse has no zero. */
  lemma {:induction false} InverseUsesAll(f: Field, idx: seq<nat>, k: nat, inv: seq<Row>, j: nat)
    requires f.Laws() && |idx| == k && Ascending(idx) && j < k
    requires Shape(Rows(f, idx, k), k, k) && LeftInverse(f, inv, Rows(f, idx, k), k)
    ensures inv[k - 1][j] != ZERO
  {
    var x := KillsOthers(f, idx, k, j);
    UsesRow(f, Rows(f, idx, k), k, inv, x, j);
  }

  /** A polynomial with leading coefficient one that every chosen row but j sends to zero. */
  lemma {:induction false} KillsOthers(f: Field, idx: seq<nat>, k: nat, j: nat) returns (x: Row)
    requires f.Laws() && |idx| == k && Ascending(idx) && j < k
    ensures |x| == k && x[k - 1] == ONE
    ensures forall i :: 0 <= i < k && i != j ==> Dot(f, Rows(f, idx, k)[i], x, k) == ZERO
  {
    var pts := Points(Others(idx, j));
    x := Annihilator(f, pts);
    forall i | 0 <= i < k && i != j ensures Dot(f, VRow(f, idx[i], k), x, k) == ZERO {
      OthersKilled(f, idx, pts, i, j);
      RootIsKilled(f, idx[i], k, x);
    }
  }

  /** If x is not zero at its end and all rows but j kill it, the inverse must use row j. */
  lemma {:induction false} UsesRow(f: Field, m: seq<Row>, k: nat, inv: seq<Row>, x: Row, j: nat)
    requires f.Laws() && j < k && Shape(m, k, k) && LeftInverse(f, inv, m, k)
    requires |x| == k && x[k - 1] == ONE && forall i :: 0 <= i < k && i != j ==> Dot(f, m[i], x, k) == ZERO
    ensures inv[k - 1][j] != ZERO
  {
    var y := Image(f, m, x);
    assert Dot(f, inv[k - 1], y, k) == x[k - 1];
    if inv[k - 1][j] == ZERO { DotVanishes(f, inv[k - 1], y, k); }
  }
}
