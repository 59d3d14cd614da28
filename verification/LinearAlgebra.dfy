/** Gauss-Jordan inversion (rig/da.py, _mat_inv) over any field of characteristic two. */
module LinearAlgebra {
  import opened Wrappers
  import opened GaloisField
  import opened FieldLaws

  type Row = seq<Byte>

  // ---- dot products ----

  /** The product of the first n entries of a row and a vector. */
  function Dot(f: Field, a: Row, x: Row, n: nat): Byte
    requires n <= |a| && n <= |x|
  {
    if n == 0 then ZERO else f.plus(Dot(f, a, x, n - 1), f.times(a[n - 1], x[n - 1]))
  }

  function Scaled(f: Field, a: Row, c: Byte): (r: Row)
    ensures |r| == |a| && forall i :: 0 <= i < |a| ==> r[i] == f.times(a[i], c)
  {
    seq(|a|, i requires 0 <= i < |a| => f.times(a[i], c))
  }

  function AddScaled(f: Field, a: Row, c: Byte, b: Row): (r: Row)
    requires |a| == |b|
    ensures |r| == |a| && forall i :: 0 <= i < |a| ==> r[i] == f.plus(a[i], f.times(c, b[i]))
  {
    seq(|a|, i requires 0 <= i < |a| => f.plus(a[i], f.times(c, b[i])))
  }

  lemma {:induction false} PlusZero(f: Field, a: Byte)
    requires f.Laws()
    ensures f.plus(a, ZERO) == a && f.plus(ZERO, a) == a && f.plus(a, a) == ZERO
    ensures f.times(a, ZERO) == ZERO && f.times(ZERO, a) == ZERO
  {
    assert f.Sums(a, ZERO, ZERO) && f.Powers(a, 0, 0);
  }

  lemma {:induction false} PlusExchange(f: Field, p: Byte, q: Byte, r: Byte, s: Byte)
    requires f.Laws()
    ensures f.plus(f.plus(p, q), f.plus(r, s)) == f.plus(f.plus(p, r), f.plus(q, s))
  {
    assert f.Sums(p, q, f.plus(r, s)) && f.Sums(q, r, s) && f.Sums(r, q, s) && f.Sums(p, r, f.plus(q, s));
  }

  lemma {:induction false} PlusCancel(f: Field, a: Byte, b: Byte)
    requires f.Laws() && f.plus(a, b) == ZERO
    ensures a == b
  {
    assert f.Sums(a, b, b) && f.Sums(b, b, b);
    PlusZero(f, a);
    PlusZero(f, b);
  }

  lemma {:induction false} Distribute(f: Field, a: Byte, b: Byte, c: Byte)
    requires f.Laws()
    ensures f.times(a, f.plus(b, c)) == f.plus(f.times(a, b), f.times(a, c))
    ensures f.times(f.plus(b, c), a) == f.plus(f.times(b, a), f.times(c, a))
  {
    assert f.Sums(a, b, c);
    MulComm(f, a, f.plus(b, c));
    MulComm(f, a, b);
    MulComm(f, a, c);
  }

  lemma {:induction false} DotScaled(f: Field, a: Row, c: Byte, x: Row, n: nat)
    requires f.Laws() && n <= |a| && n <= |x|
    ensures Dot(f, Scaled(f, a, c), x, n) == f.times(c, Dot(f, a, x, n))
  {
    if n == 0 {
      PlusZero(f, c);
    } else {
      DotScaled(f, a, c, x, n - 1);
      MulComm(f, a[n - 1], c);
      MulAssoc(f, c, a[n - 1], x[n - 1]);
      Distribute(f, c, Dot(f, a, x, n - 1), f.times(a[n - 1], x[n - 1]));
    }
  }

  lemma {:induction false} DotAddScaled(f: Field, a: Row, c: Byte, b: Row, x: Row, n: nat)
    requires f.Laws() && |a| == |b| && n <= |a| && n <= |x|
    ensures Dot(f, AddScaled(f, a, c, b), x, n) == f.plus(Dot(f, a, x, n), f.times(c, Dot(f, b, x, n)))
  {
    if n == 0 {
      PlusZero(f, c);
      PlusZero(f, ZERO);
    } else {
      var p, q, y := a[n - 1], b[n - 1], x[n - 1];
      DotAddScaled(f, a, c, b, x, n - 1);
      Distribute(f, y, p, f.times(c, q));
      MulAssoc(f, c, q, y);
      Distribute(f, c, Dot(f, b, x, n - 1), f.times(q, y));
      PlusExchange(f, Dot(f, a, x, n - 1), f.times(c, Dot(f, b, x, n - 1)), f.times(p, y), f.times(c, f.times(q, y)));
    }
  }

  /** Entries beyond the first n do not matter. */
  lemma {:induction false} DotPrefix(f: Field, a: Row, b: Row, x: Row, y: Row, n: nat)
    requires n <= |a| && n <= |b| && n <= |x| && n <= |y|
    requires forall i :: 0 <= i < n ==> a[i] == b[i] && x[i] == y[i]
    ensures Dot(f, a, x, n) == Dot(f, b, y, n)
  {
    if n > 0 { DotPrefix(f, a, b, x, y, n - 1); }
  }

  function Unit(k: nat, i: nat): (r: Row)
    ensures |r| == k && forall c :: 0 <= c < k ==> r[c] == if c == i then ONE else ZERO
  {
    seq(k, c requires 0 <= c < k => if c == i then ONE else ZERO)
  }

  lemma {:induction false} DotUnit(f: Field, k: nat, i: nat, x: Row, n: nat)
    requires f.Laws() && n <= k && n <= |x| && i < |x|
    ensures Dot(f, Unit(k, i), x, n) == if i < n then x[i] else ZERO
  {
    if n > 0 {
      DotUnit(f, k, i, x, n - 1);
      MulOne(f, x[n - 1]);
      PlusZero(f, x[n - 1]);
      PlusZero(f, x[i]);
      PlusZero(f, ZERO);
    }
  }

  /** A row split in two halves against a vector split in two. */
  lemma {:induction false} DotConcat(f: Field, row: Row, p: Row, q: Row, x: Row, y: Row, n: nat)
    requires f.Laws() && row == p + q && |p| == |x| && n <= |q| && n <= |y|
    ensures Dot(f, row, x + y, |p| + n) == f.plus(Dot(f, p, x, |p|), Dot(f, q, y, n))
  {
    if n == 0 {
      DotPrefix(f, row, p, x + y, x, |p|);
      PlusZero(f, Dot(f, p, x, |p|));
    } else {
      DotConcat(f, row, p, q, x, y, n - 1);
      assert row[|p| + n - 1] == q[n - 1] && (x + y)[|p| + n - 1] == y[n - 1];
      assert f.Sums(Dot(f, p, x, |p|), Dot(f, q, y, n - 1), f.times(q[n - 1], y[n - 1]));
    }
  }

  // ---- what elimination keeps ----

  ghost predicate Shape(m: seq<Row>, k: nat, width: nat) {
    |m| == k && forall r :: 0 <= r < k ==> |m[r]| == width
  }

  function Image(f: Field, m: seq<Row>, x: Row): (y: Row)
    requires forall r :: 0 <= r < |m| ==> |m[r]| == |x|
    ensures |y| == |m| && forall r :: 0 <= r < |m| ==> y[r] == Dot(f, m[r], x, |x|)
  {
    seq(|m|, r requires 0 <= r < |m| => Dot(f, m[r], x, |x|))
  }

  /** The augmented row p | q satisfies p.x == q.(m x) for every x: in characteristic two, it annihilates x, m x. */
  ghost predicate RowOk(f: Field, row: Row, m: seq<Row>, k: nat)
    requires Shape(m, k, k) && |row| == 2 * k
  {
    forall x: Row {:trigger Image(f, m, x)} :: |x| == k ==> Dot(f, row, x + Image(f, m, x), 2 * k) == ZERO
  }

  ghost predicate AllOk(f: Field, a: seq<Row>, m: seq<Row>, k: nat)
    requires Shape(m, k, k) && Shape(a, k, 2 * k)
  {
    forall r :: 0 <= r < k ==> RowOk(f, a[r], m, k)
  }

  ghost predicate Kills(f: Field, rows: seq<Row>, x: Row, k: nat)
    requires |x| == k && forall r :: 0 <= r < |rows| ==> |rows[r]| >= k
  {
    forall r :: 0 <= r < |rows| ==> Dot(f, rows[r], x, k) == ZERO
  }

  /** Elimination enlarges no kernel. */
  ghost predicate KernelKept(f: Field, a: seq<Row>, b: seq<Row>, k: nat)
    requires forall r :: 0 <= r < |a| ==> |a[r]| >= k
    requires forall r :: 0 <= r < |b| ==> |b[r]| >= k
  {
    forall x: Row {:trigger Kills(f, a, x, k)} :: |x| == k && Kills(f, a, x, k) ==> Kills(f, b, x, k)
  }

  lemma {:induction false} ScaledOk(f: Field, row: Row, c: Byte, m: seq<Row>, k: nat)
    requires f.Laws() && Shape(m, k, k) && |row| == 2 * k && RowOk(f, row, m, k)
    ensures RowOk(f, Scaled(f, row, c), m, k)
  {
    forall x: Row | |x| == k ensures Dot(f, Scaled(f, row, c), x + Image(f, m, x), 2 * k) == ZERO {
      DotScaled(f, row, c, x + Image(f, m, x), 2 * k);
      PlusZero(f, c);
    }
  }

  lemma {:induction false} AddScaledOk(f: Field, row: Row, c: Byte, other: Row, m: seq<Row>, k: nat)
    requires f.Laws() && Shape(m, k, k) && |row| == |other| == 2 * k && RowOk(f, row, m, k) && RowOk(f, other, m, k)
    ensures RowOk(f, AddScaled(f, row, c, other), m, k)
  {
    forall x: Row | |x| == k ensures Dot(f, AddScaled(f, row, c, other), x + Image(f, m, x), 2 * k) == ZERO {
      DotAddScaled(f, row, c, other, x + Image(f, m, x), 2 * k);
      PlusZero(f, c);
      PlusZero(f, ZERO);
    }
  }

  function Identity(m: seq<Row>, k: nat): (a: seq<Row>)
    requires |m| == k
    ensures |a| == k && forall r :: 0 <= r < k ==> a[r] == m[r] + Unit(k, r)
  {
    seq(k, r requires 0 <= r < k => m[r] + Unit(k, r))
  }

  lemma {:induction false} StartOk(f: Field, m: seq<Row>, k: nat)
    requires f.Laws() && Shape(m, k, k)
    ensures Shape(Identity(m, k), k, 2 * k) && AllOk(f, Identity(m, k), m, k)
    ensures KernelKept(f, Identity(m, k), m, k)
  {
    var a := Identity(m, k);
    forall r, x: Row | 0 <= r < k && |x| == k ensures Dot(f, a[r], x + Image(f, m, x), 2 * k) == ZERO {
      DotConcat(f, a[r], m[r], Unit(k, r), x, Image(f, m, x), k);
      DotUnit(f, k, r, Image(f, m, x), k);
      PlusZero(f, Dot(f, m[r], x, k));
    }
    forall x: Row | |x| == k && Kills(f, a, x, k) ensures Kills(f, m, x, k) {
      forall r | 0 <= r < k ensures Dot(f, m[r], x, k) == ZERO { DotPrefix(f, a[r], m[r], x, x, k); }
    }
  }

  /** The first col columns are those of the identity. */
  ghost predicate Reduced(a: seq<Row>, k: nat, col: nat)
    requires Shape(a, k, 2 * k) && col <= k
  {
    forall r, c :: 0 <= r < k && 0 <= c < col ==> a[r][c] == if r == c then ONE else ZERO
  }

  // ---- a column without a pivot exposes the kernel ----

  /** The combination of columns that vanishes when column col has no pivot. */
  function KernelVector(a: seq<Row>, k: nat, col: nat): (x: Row)
    requires col < k && |a| == k && forall r :: 0 <= r < k ==> |a[r]| == 2 * k
    ensures |x| == k
  {
    seq(k, c requires 0 <= c < k => if c < col then a[c][col] else if c == col then ONE else ZERO)
  }

  lemma {:induction false} KernelDot(f: Field, a: seq<Row>, k: nat, col: nat, r: nat, n: nat)
    requires f.Laws() && Shape(a, k, 2 * k) && col < k && r < k && n <= k && Reduced(a, k, col)
    requires r >= col ==> a[r][col] == ZERO
    ensures Dot(f, a[r], KernelVector(a, k, col), n)
      == if n <= col then (if r < n then a[r][col] else ZERO) else ZERO
  {
    var x := KernelVector(a, k, col);
    if n > 0 {
      KernelDot(f, a, k, col, r, n - 1);
      PlusZero(f, a[r][n - 1]);
      PlusZero(f, a[r][col]);
      PlusZero(f, x[n - 1]);
      PlusZero(f, ZERO);
      MulOne(f, a[r][col]);
    }
  }

  ghost predicate Nonzero(x: Row) { exists i :: 0 <= i < |x| && x[i] != ZERO }

  lemma {:induction false} NoPivot(f: Field, a: seq<Row>, m: seq<Row>, k: nat, col: nat)
    requires f.Laws() && Shape(m, k, k) && Shape(a, k, 2 * k) && col < k && Reduced(a, k, col)
    requires KernelKept(f, a, m, k) && forall r :: col <= r < k ==> a[r][col] == ZERO
    ensures exists x: Row :: |x| == k && Nonzero(x) && Kills(f, m, x, k)
  {
    var x := KernelVector(a, k, col);
    forall r | 0 <= r < k ensures Dot(f, a[r], x, k) == ZERO { KernelDot(f, a, k, col, r, k); }
    assert x[col] == ONE && Kills(f, a, x, k);
  }

  // ---- elimination, step by step ----

  /** Everything the elimination loop keeps. */
  ghost predicate State(f: Field, a: seq<Row>, m: seq<Row>, k: nat, col: nat) {
    && Shape(m, k, k) && Shape(a, k, 2 * k) && col <= k
    && AllOk(f, a, m, k) && KernelKept(f, a, m, k) && Reduced(a, k, col)
  }

  lemma {:induction false} KernelChain(f: Field, a: seq<Row>, b: seq<Row>, m: seq<Row>, k: nat)
    requires Shape(m, k, k) && Shape(a, k, 2 * k) && Shape(b, k, 2 * k)
    requires KernelKept(f, b, a, k) && KernelKept(f, a, m, k)
    ensures KernelKept(f, b, m, k)
  {
  }

  function Swapped(a: seq<Row>, i: nat, j: nat): (b: seq<Row>)
    requires i < |a| && j < |a|
    ensures |b| == |a|
    ensures forall r :: 0 <= r < |a| ==> b[r] == if r == i then a[j] else if r == j then a[i] else a[r]
  {
    a[i := a[j]][j := a[i]]
  }

  lemma {:induction false} SwapKeeps(f: Field, a: seq<Row>, m: seq<Row>, k: nat, col: nat, piv: nat)
    requires State(f, a, m, k, col) && col <= piv < k
    ensures State(f, Swapped(a, col, piv), m, k, col)
  {
    var b := Swapped(a, col, piv);
    forall x: Row | |x| == k && Kills(f, b, x, k) ensures Kills(f, a, x, k) {
      forall r | 0 <= r < k ensures Dot(f, a[r], x, k) == ZERO {
        assert a[r] == b[if r == col then piv else if r == piv then col else r];
      }
    }
    KernelChain(f, a, b, m, k);
  }

  lemma {:induction false} ScaleKeeps(f: Field, a: seq<Row>, m: seq<Row>, k: nat, col: nat)
    requires f.Laws() && State(f, a, m, k, col) && col < k && a[col][col] != ZERO
    ensures var b := a[col := Scaled(f, a[col], f.Inv(a[col][col]))];
      State(f, b, m, k, col) && b[col][col] == ONE
  {
    var c := f.Inv(a[col][col]);
    var b := a[col := Scaled(f, a[col], c)];
    ScaledOk(f, a[col], c, m, k);
    MulInverse(f, a[col][col]);
    forall x: Row | |x| == k && Kills(f, b, x, k) ensures Kills(f, a, x, k) {
      forall r | 0 <= r < k ensures Dot(f, a[r], x, k) == ZERO {
        if r == col {
          DotScaled(f, a[col], c, x, k);
          assert Dot(f, b[col], x, k) == ZERO;
          Unscale(f, a[col][col], c, Dot(f, a[col], x, k));
        } else {
          assert b[r] == a[r];
        }
      }
    }
    KernelChain(f, a, b, m, k);
    forall i | 0 <= i < col ensures b[col][i] == ZERO { PlusZero(f, c); }
  }

  lemma {:induction false} Unscale(f: Field, p: Byte, c: Byte, d: Byte)
    requires f.Laws() && f.times(p, c) == ONE && f.times(c, d) == ZERO
    ensures d == ZERO
  {
    MulOne(f, d);
    MulAssoc(f, p, c, d);
    PlusZero(f, p);
  }

  /** Column col is cleared in the rows below n other than row col. */
  ghost predicate Cleared(a: seq<Row>, k: nat, col: nat, n: nat)
    requires Shape(a, k, 2 * k) && col < k
  {
    a[col][col] == ONE && forall r :: 0 <= r < n && r < k && r != col ==> a[r][col] == ZERO
  }

  lemma {:induction false} EliminateEntries(f: Field, a: seq<Row>, k: nat, col: nat, r: nat)
    requires f.Laws() && Shape(a, k, 2 * k) && col < k && Reduced(a, k, col) && a[col][col] == ONE && r < k && r != col
    ensures var row := AddScaled(f, a[r], a[r][col], a[col]);
      row[col] == ZERO && forall c :: 0 <= c < col ==> row[c] == a[r][c]
  {
    MulOne(f, a[r][col]);
    PlusZero(f, a[r][col]);
    forall c | 0 <= c < col ensures AddScaled(f, a[r], a[r][col], a[col])[c] == a[r][c] { PlusZero(f, a[r][c]); }
  }

  lemma {:induction false} EliminateKeeps(f: Field, a: seq<Row>, m: seq<Row>, k: nat, col: nat, r: nat)
    requires f.Laws() && State(f, a, m, k, col) && col < k && r < k && r != col && Cleared(a, k, col, r)
    ensures var b := a[r := AddScaled(f, a[r], a[r][col], a[col])];
      State(f, b, m, k, col) && Cleared(b, k, col, r + 1)
  {
    var c := a[r][col];
    var b := a[r := AddScaled(f, a[r], c, a[col])];
    AddScaledOk(f, a[r], c, a[col], m, k);
    EliminateEntries(f, a, k, col, r);
    forall x: Row | |x| == k && Kills(f, b, x, k) ensures Kills(f, a, x, k) { Uneliminate(f, a, k, col, r, x); }
    KernelChain(f, a, b, m, k);
  }

  lemma {:induction false} Uneliminate(f: Field, a: seq<Row>, k: nat, col: nat, r: nat, x: Row)
    requires f.Laws() && Shape(a, k, 2 * k) && col < k && r < k && r != col && |x| == k
    requires Kills(f, a[r := AddScaled(f, a[r], a[r][col], a[col])], x, k)
    ensures Kills(f, a, x, k)
  {
    var c := a[r][col];
    var b := a[r := AddScaled(f, a[r], c, a[col])];
    assert b[col] == a[col] && Dot(f, a[col], x, k) == ZERO;
    assert Dot(f, b[r], x, k) == ZERO;
    DotAddScaled(f, a[r], c, a[col], x, k);
    PlusZero(f, c);
    PlusZero(f, Dot(f, a[r], x, k));
    forall i | 0 <= i < k ensures Dot(f, a[i], x, k) == ZERO {
      if i != r { assert b[i] == a[i]; }
    }
  }

  method FindPivot(a: seq<Row>, k: nat, col: nat) returns (piv: Option<nat>)
    requires Shape(a, k, 2 * k) && col < k
    ensures piv.Some? ==> col <= piv.value < k && a[piv.value][col] != ZERO
    ensures piv.None? ==> forall r :: col <= r < k ==> a[r][col] == ZERO
  {
    for r := col to k
      invariant forall i :: col <= i < r ==> a[i][col] == ZERO
    {
      if a[r][col] != ZERO { return Some(r); }
    }
    return None;
  }

  /** Clear column col in every other row. */
  method ClearColumn(f: Field, a0: seq<Row>, ghost m: seq<Row>, k: nat, col: nat) returns (a: seq<Row>)
    requires f.Laws() && State(f, a0, m, k, col) && col < k && a0[col][col] == ONE
    ensures State(f, a, m, k, col + 1)
  {
    a := a0;
    for r := 0 to k
      invariant State(f, a, m, k, col) && Cleared(a, k, col, r)
    {
      if r != col && a[r][col] != ZERO {
        EliminateKeeps(f, a, m, k, col, r);
        a := a[r := AddScaled(f, a[r], a[r][col], a[col])];
      }
    }
  }

  /** Swap the pivot row up and scale it to one. */
  method PlacePivot(f: Field, a0: seq<Row>, ghost m: seq<Row>, k: nat, col: nat, piv: nat) returns (a: seq<Row>)
    requires f.Laws() && State(f, a0, m, k, col) && col <= piv < k && a0[piv][col] != ZERO
    ensures State(f, a, m, k, col) && a[col][col] == ONE
  {
    SwapKeeps(f, a0, m, k, col, piv);
    a := Swapped(a0, col, piv);
    ScaleKeeps(f, a, m, k, col);
    a := a[col := Scaled(f, a[col], f.Inv(a[col][col]))];
  }

  /** inv undoes m on every vector. */
  ghost predicate LeftInverse(f: Field, inv: seq<Row>, m: seq<Row>, k: nat)
    requires Shape(m, k, k)
  {
    && Shape(inv, k, k)
    && forall x: Row {:trigger Image(f, m, x)} :: |x| == k ==>
         forall r :: 0 <= r < k ==> Dot(f, inv[r], Image(f, m, x), k) == x[r]
  }

  lemma {:induction false} Finished(f: Field, a: seq<Row>, m: seq<Row>, k: nat, inv: seq<Row>)
    requires f.Laws() && State(f, a, m, k, k) && |inv| == k && forall r :: 0 <= r < k ==> inv[r] == a[r][k..]
    ensures LeftInverse(f, inv, m, k)
  {
    forall x: Row, r | |x| == k && 0 <= r < k ensures Dot(f, inv[r], Image(f, m, x), k) == x[r] {
      var p, y := a[r][..k], Image(f, m, x);
      assert a[r] == p + inv[r] && RowOk(f, a[r], m, k);
      DotConcat(f, a[r], p, inv[r], x, y, k);
      assert p == Unit(k, r);
      DotUnit(f, k, r, x, k);
      PlusCancel(f, x[r], Dot(f, inv[r], y, k));
    }
  }

  /**
   * Gauss-Jordan. A returned matrix is a left inverse; no matrix is returned
   * exactly when m sends some nonzero vector to zero.
   */
  method MatInv(f: Field, m: seq<Row>, k: nat) returns (r: Option<seq<Row>>)
    requires f.Laws() && Shape(m, k, k)
    ensures r.Some? ==> LeftInverse(f, r.value, m, k)
    ensures r.None? ==> exists x: Row :: |x| == k && Nonzero(x) && Kills(f, m, x, k)
  {
    var a := Identity(m, k);
    StartOk(f, m, k);
    for col := 0 to k
      invariant State(f, a, m, k, col)
    {
      var piv := FindPivot(a, k, col);
      if piv.None? {
        NoPivot(f, a, m, k, col);
        return None;
      }
      a := PlacePivot(f, a, m, k, col, piv.value);
      a := ClearColumn(f, a, m, k, col);
    }
    var inv := seq(k, i requires 0 <= i < k && |a| == k && |a[i]| == 2 * k => a[i][k..]);
    Finished(f, a, m, k, inv);
    return Some(inv);
  }

  /** The two outcomes of MatInv exclude each other. */
  lemma {:induction false} InverseHasNoKernel(f: Field, inv: seq<Row>, m: seq<Row>, k: nat, x: Row)
    requires f.Laws() && Shape(m, k, k) && LeftInverse(f, inv, m, k) && |x| == k && Kills(f, m, x, k)
    ensures !Nonzero(x)
  {
    var y := Image(f, m, x);
    forall r | 0 <= r < k ensures x[r] == ZERO { DotZeros(f, inv[r], y, k); }
  }

  lemma {:induction false} DotZeros(f: Field, a: Row, y: Row, n: nat)
    requires f.Laws() && n <= |a| && n <= |y| && forall i :: 0 <= i < n ==> y[i] == ZERO
    ensures Dot(f, a, y, n) == ZERO
  {
    if n > 0 {
      DotZeros(f, a, y, n - 1);
      PlusZero(f, a[n - 1]);
      PlusZero(f, ZERO);
    }
  }
}
