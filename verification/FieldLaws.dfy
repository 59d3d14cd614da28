/** The multiplicative structure of GF(256): logarithms, products, inverses, and the tables that hold them. */
module FieldLaws {
  import opened Division
  import opened GaloisField

  // ---- bytes as numbers ----

  function Val(x: Bit): nat { if x.I? then 1 else 0 }
  function BitOf(n: nat): Bit { if n % 2 == 1 then I else O }

  function Value(b: Byte): (n: nat)
    ensures n < 256
  {
    Val(b.b0) + 2 * (Val(b.b1) + 2 * (Val(b.b2) + 2 * (Val(b.b3) + 2 * (Val(b.b4) + 2 * (Val(b.b5)
    + 2 * (Val(b.b6) + 2 * Val(b.b7)))))))
  }

  function ByteOf(n: nat): Byte {
    var h1 := n / 2;
    var h2 := h1 / 2;
    var h3 := h2 / 2;
    var h4 := h3 / 2;
    var h5 := h4 / 2;
    var h6 := h5 / 2;
    var h7 := h6 / 2;
    Byte(BitOf(h7), BitOf(h6), BitOf(h5), BitOf(h4), BitOf(h3), BitOf(h2), BitOf(h1), BitOf(n))
  }

  lemma {:induction false} Digit(x: Bit, y: Bit, p: nat, q: nat)
    requires Val(x) + 2 * p == Val(y) + 2 * q
    ensures x == y && p == q
  {
  }

  lemma {:induction false} ValueInjective(a: Byte, b: Byte)
    requires Value(a) == Value(b)
    ensures a == b
  {
    var a6, b6 := Val(a.b6) + 2 * Val(a.b7), Val(b.b6) + 2 * Val(b.b7);
    var a5, b5 := Val(a.b5) + 2 * a6, Val(b.b5) + 2 * b6;
    var a4, b4 := Val(a.b4) + 2 * a5, Val(b.b4) + 2 * b5;
    var a3, b3 := Val(a.b3) + 2 * a4, Val(b.b3) + 2 * b4;
    var a2, b2 := Val(a.b2) + 2 * a3, Val(b.b2) + 2 * b3;
    var a1, b1 := Val(a.b1) + 2 * a2, Val(b.b1) + 2 * b2;
    Digit(a.b0, b.b0, a1, b1);
    Digit(a.b1, b.b1, a2, b2);
    Digit(a.b2, b.b2, a3, b3);
    Digit(a.b3, b.b3, a4, b4);
    Digit(a.b4, b.b4, a5, b5);
    Digit(a.b5, b.b5, a6, b6);
    Digit(a.b6, b.b6, Val(a.b7), Val(b.b7));
  }

  lemma {:induction false} ValueOfByte(n: nat)
    requires n < 256
    ensures Value(ByteOf(n)) == n
  {
    var h1 := n / 2;
    var h2 := h1 / 2;
    var h3 := h2 / 2;
    var h4 := h3 / 2;
    var h5 := h4 / 2;
    var h6 := h5 / 2;
    var h7 := h6 / 2;
    assert n == 2 * h1 + Val(BitOf(n)) && h1 == 2 * h2 + Val(BitOf(h1)) && h2 == 2 * h3 + Val(BitOf(h2));
    assert h3 == 2 * h4 + Val(BitOf(h3)) && h4 == 2 * h5 + Val(BitOf(h4)) && h5 == 2 * h6 + Val(BitOf(h5));
    assert h6 == 2 * h7 + Val(BitOf(h6)) && h7 == Val(BitOf(h7));
  }

  lemma {:induction false} ValueZero(b: Byte)
    ensures Value(b) == 0 <==> b == ZERO
  {
    if Value(b) == 0 { ValueInjective(b, ZERO); }
  }

  // ---- the powers of 3 are all the nonzero bytes ----

  lemma {:induction false} PeriodDifference(a: nat, b: nat)
    requires a <= b && Exp(a) == Exp(b)
    ensures Exp(b - a) == ONE
  {
    ScaleAdds(a, b - a, ONE);
    ScaleInjective(a, Exp(b - a), ONE);
  }

  lemma {:induction false} PeriodMultiple(g: nat, k: nat)
    requires Exp(g) == ONE
    ensures Exp(g * k) == ONE
  {
    if k > 0 {
      PeriodMultiple(g, k - 1);
      assert g * k == g + g * (k - 1);
      ScaleAdds(g, g * (k - 1), ONE);
    }
  }

  /** Euclid on two periods. */
  lemma {:induction false} CommonPeriod(a: nat, b: nat) returns (g: nat, p: nat, q: nat)
    requires a > 0 && b > 0 && Exp(a) == ONE && Exp(b) == ONE
    ensures g > 0 && Exp(g) == ONE && a == g * p && b == g * q
    decreases a + b
  {
    if a == b {
      return a, 1, 1;
    } else if a < b {
      PeriodDifference(a, b);
      g, p, q := CommonPeriod(a, b - a);
      assert g * (p + q) == g * p + g * q;
      q := p + q;
    } else {
      PeriodDifference(b, a);
      g, p, q := CommonPeriod(a - b, b);
      assert g * (p + q) == g * p + g * q;
      p := p + q;
    }
  }

  lemma {:induction false} SmallFactor(g: nat, q: nat)
    requires g * q == 255
    ensures g <= 15 || q <= 15
  {
    if g > 15 && q > 15 {
      MulMonotone(g, 16, q);
      assert false;
    }
  }

  /** A proper divisor of 255 divides 15, 51 or 85. */
  lemma {:induction false} ProperDivisor(g: nat, q: nat) returns (k: nat)
    requires g * q == 255 && g < 255
    ensures 17 * (g * k) == 255 || 5 * (g * k) == 255 || 3 * (g * k) == 255
  {
    SmallFactor(g, q);
    if g <= 15 {
      SmallDivisor(g, q);
      k := 15 / g;
    } else {
      assert q * g == 255;
      SmallDivisor(q, g);
      k := if q == 15 then 3 else 1;
    }
  }

  lemma {:induction false} SmallDivisor(g: nat, q: nat)
    requires g * q == 255 && g <= 15
    ensures g == 1 || g == 3 || g == 5 || g == 15
  {
    assert g != 0;
    assert g == 2 ==> 2 * q == 255;
    assert g == 4 ==> 4 * q == 255;
    assert g == 6 ==> 6 * q == 255;
    assert g == 7 ==> 7 * q == 255;
    assert g == 8 ==> 8 * q == 255;
    assert g == 9 ==> 9 * q == 255;
    assert g == 10 ==> 10 * q == 255;
    assert g == 11 ==> 11 * q == 255;
    assert g == 12 ==> 12 * q == 255;
    assert g == 13 ==> 13 * q == 255;
    assert g == 14 ==> 14 * q == 255;
  }

  lemma {:induction false} NoShortPeriod(d: nat)
    requires 0 < d < 255
    ensures Exp(d) != ONE
  {
    if Exp(d) == ONE {
      var n: nat :| 2 * n == 2 * 255;
      Order(n);
      var g, p, q := CommonPeriod(n, d);
      assert g <= d by { if q > 0 { MulMonotone(g, 1, q); } }
      var k := ProperDivisor(g, p);
      PeriodMultiple(g, k);
      Order(g * k);
    }
  }

  lemma {:induction false} ExpDistinct(i: nat, j: nat)
    requires i < 255 && j < 255 && Exp(i) == Exp(j)
    ensures i == j
  {
    if i < j {
      PeriodDifference(i, j);
      NoShortPeriod(j - i);
    } else if j < i {
      PeriodDifference(j, i);
      NoShortPeriod(i - j);
    }
  }

  function FirstPowers(n: nat): set<nat> {
    if n == 0 then {} else FirstPowers(n - 1) + {Value(Exp(n - 1))}
  }

  lemma {:induction false} FirstPowersHave(n: nat, v: nat)
    requires v in FirstPowers(n)
    ensures exists i :: 0 <= i < n && v == Value(Exp(i))
  {
    if v in FirstPowers(n - 1) && n > 0 {
      FirstPowersHave(n - 1, v);
    } else {
      assert v == Value(Exp(n - 1));
    }
  }

  lemma {:induction false} FirstPowersSize(n: nat)
    requires n <= 255
    ensures |FirstPowers(n)| == n && forall v :: v in FirstPowers(n) ==> 0 < v < 256
  {
    if n > 0 {
      FirstPowersSize(n - 1);
      var v := Value(Exp(n - 1));
      ExpNonzero(n - 1);
      ValueZero(Exp(n - 1));
      if v in FirstPowers(n - 1) {
        FirstPowersHave(n - 1, v);
        var i :| 0 <= i < n - 1 && v == Value(Exp(i));
        ValueInjective(Exp(i), Exp(n - 1));
        ExpDistinct(i, n - 1);
      }
    }
  }

  function UpTo(n: nat): set<nat> { if n == 0 then {} else UpTo(n - 1) + {n} }

  lemma {:induction false} UpToSize(n: nat)
    ensures |UpTo(n)| == n && forall v :: v in UpTo(n) <==> 0 < v <= n
  {
    if n > 0 { UpToSize(n - 1); }
  }

  lemma {:induction false} SubsetFull<T>(a: set<T>, b: set<T>)
    requires a <= b && |a| == |b|
    ensures a == b
  {
    assert |b - a| == |b| - |a|;
  }

  lemma {:induction false} EveryByteIsPower(b: Byte)
    requires b != ZERO
    ensures exists n :: 0 <= n < 255 && Exp(n) == b
  {
    var all: nat :| 2 * all == 2 * 255;
    FirstPowersSize(all);
    UpToSize(all);
    SubsetFull(FirstPowers(all), UpTo(all));
    ValueZero(b);
    FirstPowersHave(all, Value(b));
    var n :| 0 <= n < all && Value(b) == Value(Exp(n));
    ValueInjective(b, Exp(n));
  }

  // ---- logarithms, products, inverses ----

  lemma {:induction false} UniqueLog(b: Byte)
    ensures forall i, j :: 0 <= i < 255 && 0 <= j < 255 && Exp(i) == b && Exp(j) == b ==> i == j
  {
    forall i, j | 0 <= i < 255 && 0 <= j < 255 && Exp(i) == b && Exp(j) == b ensures i == j { ExpDistinct(i, j); }
  }

  /** The table's logarithm; the entry of zero stays zero. */
  function Log(b: Byte): (n: nat)
    ensures n < 255 && (if b == ZERO then n == 0 else Exp(n) == b)
  {
    if b == ZERO then 0
    else
      EveryByteIsPower(b);
      UniqueLog(b);
      var n: nat :| n < 255 && Exp(n) == b;
      n
  }

  /** Addition, multiplication, powers of a generator and logarithms, as function values. */
  datatype Field = Field(plus: (Byte, Byte) -> Byte, times: (Byte, Byte) -> Byte, exp: nat -> Byte, log: Byte -> nat)
  {
    function Inv(a: Byte): Byte { if log(a) <= 255 then exp(255 - log(a)) else ZERO }

    /** Characteristic two. */
    ghost predicate Sums(a: Byte, b: Byte, c: Byte) {
      && plus(a, b) == plus(b, a) && plus(plus(a, b), c) == plus(a, plus(b, c))
      && plus(a, ZERO) == a && plus(a, a) == ZERO
      && times(a, plus(b, c)) == plus(times(a, b), times(a, c))
    }

    /** The nonzero bytes are the first 255 powers. */
    ghost predicate Powers(a: Byte, m: nat, n: nat) {
      && times(exp(m), exp(n)) == exp(m + n) && exp(m) != ZERO
      && (m == 0 || m == 255 ==> exp(m) == ONE)
      && times(a, ZERO) == ZERO && times(ZERO, a) == ZERO
      && log(a) < 255 && (a != ZERO ==> exp(log(a)) == a)
    }

    ghost predicate Laws() {
      && (forall a, b, c {:trigger Sums(a, b, c)} :: Sums(a, b, c))
      && (forall a, m, n {:trigger Powers(a, m, n)} :: Powers(a, m, n))
    }
  }

  function GF(): Field {
    Field((a, b) => Xor(a, b), (a, b) => Times(a, b), (n: nat) => Exp(n), (b: Byte) => Log(b))
  }

  lemma {:induction false} TimesBitsZero(bits: seq<Bit>, b: Byte)
    requires forall i :: 0 <= i < |bits| ==> bits[i] == O
    ensures TimesBits(bits, b) == ZERO
  {
    if bits != [] { TimesBitsZero(bits[1..], XTime(b)); }
  }

  lemma {:induction false} TimesZero(a: Byte)
    ensures Times(ZERO, a) == ZERO && Times(a, ZERO) == ZERO
  {
    TimesBitsZero(Bits(ZERO), a);
    XorUnits(ZERO);
    TimesBitsLinear(Bits(a), ZERO, ZERO);
    XorUnits(Times(a, ZERO));
  }

  lemma {:induction false} ExpTimes(m: nat, n: nat)
    ensures Times(Exp(m), Exp(n)) == Exp(m + n)
  {
    ScaleAdds(n, m, ONE);
    ScaleIsTimes(n, Exp(m));
  }

  lemma {:induction false} PlusLaws(a: Byte, b: Byte, c: Byte)
    ensures GF().plus(a, b) == GF().plus(b, a) && GF().plus(GF().plus(a, b), c) == GF().plus(a, GF().plus(b, c))
    ensures GF().plus(a, ZERO) == a && GF().plus(a, a) == ZERO
  {
    XorComm(a, b);
    XorAssoc(a, b, c);
    XorUnits(a);
  }

  lemma {:induction false} Distributes(a: Byte, b: Byte, c: Byte)
    ensures GF().times(a, GF().plus(b, c)) == GF().plus(GF().times(a, b), GF().times(a, c))
  {
    TimesBitsLinear(Bits(a), b, c);
  }

  lemma {:induction false} SumsHold(a: Byte, b: Byte, c: Byte)
    ensures GF().Sums(a, b, c)
  {
    PlusLaws(a, b, c);
    Distributes(a, b, c);
  }

  lemma {:induction false} TimesValue(a: Byte, b: Byte)
    ensures GF().times(a, b) == Times(a, b)
  {
  }

  lemma {:induction false} PowerLaws(m: nat, n: nat)
    ensures GF().times(GF().exp(m), GF().exp(n)) == GF().exp(m + n)
  {
    var f, a, b, c := GF(), Exp(m), Exp(n), Exp(m + n);
    assert f.exp(m) == a && f.exp(n) == b && f.exp(m + n) == c;
    assert f.times(a, b) == c by {
      ExpTimes(m, n);
      TimesValue(a, b);
    }
  }

  lemma {:induction false} PowerUnits(m: nat)
    ensures GF().exp(m) != ZERO && (m == 0 || m == 255 ==> GF().exp(m) == ONE)
  {
    ExpNonzero(m);
    Order(m);
  }

  lemma {:induction false} ZeroLaws(a: Byte)
    ensures GF().times(a, ZERO) == ZERO && GF().times(ZERO, a) == ZERO
    ensures GF().log(a) < 255 && (a != ZERO ==> GF().exp(GF().log(a)) == a)
  {
    TimesZero(a);
  }

  lemma {:induction false} PowersHold(a: Byte, m: nat, n: nat)
    ensures GF().Powers(a, m, n)
  {
    PowerLaws(m, n);
    PowerUnits(m);
    ZeroLaws(a);
  }

  /** GF(256) is a field whose nonzero elements are the powers of 3. */
  lemma {:induction false} IsField()
    ensures GF().Laws()
  {
    forall a, b, c ensures GF().Sums(a, b, c) { SumsHold(a, b, c); }
    forall a, m, n ensures GF().Powers(a, m, n) { PowersHold(a, m, n); }
  }

  // ---- consequences, for any such field ----

  /** The product by logarithms. */
  lemma {:induction false} ProductByLogs(f: Field, a: Byte, b: Byte)
    requires f.Laws()
    ensures f.times(a, b) == if a == ZERO || b == ZERO then ZERO else f.exp(f.log(a) + f.log(b))
    ensures f.times(a, b) == ZERO <==> a == ZERO || b == ZERO
    ensures f.log(a) < 255 && f.log(b) < 255
  {
    assert f.Powers(a, f.log(a), f.log(b)) && f.Powers(b, f.log(a) + f.log(b), 0);
  }

  lemma {:induction false} MulComm(f: Field, a: Byte, b: Byte)
    requires f.Laws()
    ensures f.times(a, b) == f.times(b, a)
  {
    ProductByLogs(f, a, b);
    ProductByLogs(f, b, a);
  }

  lemma {:induction false} MulAssoc(f: Field, a: Byte, b: Byte, c: Byte)
    requires f.Laws()
    ensures f.times(f.times(a, b), c) == f.times(a, f.times(b, c))
  {
    ProductByLogs(f, a, b);
    ProductByLogs(f, b, c);
    ProductByLogs(f, f.times(a, b), c);
    ProductByLogs(f, a, f.times(b, c));
    var x, y, z := f.log(a), f.log(b), f.log(c);
    assert f.Powers(a, x + y, z) && f.Powers(b, x, y + z) && f.Powers(c, 0, 0);
  }

  lemma {:induction false} MulInverse(f: Field, a: Byte)
    requires f.Laws() && a != ZERO
    ensures f.times(a, f.Inv(a)) == ONE && f.times(f.Inv(a), a) == ONE
  {
    assert f.Powers(a, f.log(a), 255 - f.log(a)) && f.Powers(a, 255, 0);
    MulComm(f, a, f.Inv(a));
  }

  lemma {:induction false} MulOne(f: Field, a: Byte)
    requires f.Laws()
    ensures f.times(ONE, a) == a && f.times(a, ONE) == a
  {
    assert f.Powers(a, 0, f.log(a));
    ProductByLogs(f, ONE, a);
    MulComm(f, a, ONE);
  }

  // ---- the tables ----

  ghost predicate Tables(exp: seq<Byte>, log: seq<nat>) {
    && |exp| == 512 && (forall i :: 0 <= i < 512 ==> exp[i] == Exp(i))
    && |log| == 256 && (forall b: Byte :: log[Value(b)] == Log(b))
  }

  lemma {:induction false} ExpPeriod(n: nat)
    requires n >= 255
    ensures Exp(n) == Exp(n - 255)
  {
    var k: nat :| 2 * k == 2 * 255;
    Order(k);
    ScaleAdds(n - k, k, ONE);
  }

  /** What the first i rounds of the table loop have written. */
  ghost predicate Logged(log: seq<nat>, i: nat) {
    && |log| == 256
    && (forall j :: 0 <= j < i ==> log[Value(Exp(j))] == j)
    && (forall b: Byte :: (forall j :: 0 <= j < i ==> Exp(j) != b) ==> log[Value(b)] == 0)
  }

  lemma {:induction false} LogStep(log: seq<nat>, i: nat)
    requires Logged(log, i) && i < 255
    ensures Logged(log[Value(Exp(i)) := i], i + 1)
  {
    var next := log[Value(Exp(i)) := i];
    forall j | 0 <= j < i ensures next[Value(Exp(j))] == j {
      if Value(Exp(j)) == Value(Exp(i)) {
        ValueInjective(Exp(j), Exp(i));
        ExpDistinct(j, i);
      }
    }
    forall b: Byte | forall j :: 0 <= j < i + 1 ==> Exp(j) != b ensures next[Value(b)] == 0 {
      assert Exp(i) != b;
      if Value(b) == Value(Exp(i)) { ValueInjective(b, Exp(i)); }
    }
  }

  lemma {:induction false} LoggedAll(log: seq<nat>, n: nat)
    requires Logged(log, n) && 2 * n == 2 * 255
    ensures forall b: Byte :: log[Value(b)] == Log(b)
  {
    forall b: Byte ensures log[Value(b)] == Log(b) {
      if b == ZERO {
        forall j | 0 <= j < n ensures Exp(j) != b { ExpNonzero(j); }
      } else {
      }
    }
  }

  /** The two table loops. */
  method BuildTables() returns (exp: seq<Byte>, log: seq<nat>)
    ensures Tables(exp, log)
  {
    exp, log := seq(512, _ => ZERO), seq(256, _ => 0);
    var x := ONE;
    var i := 0;
    while i < 255
      invariant 0 <= i <= 255 && |exp| == 512 && x == Exp(i) && Logged(log, i)
      invariant forall j :: 0 <= j < i ==> exp[j] == Exp(j)
    {
      exp := exp[i := x];
      LogStep(log, i);
      log := log[Value(x) := i];
      x := Triple(x);
      i := i + 1;
    }
    LoggedAll(log, i);
    while i < 512
      invariant 255 <= i <= 512 && |exp| == 512
      invariant forall j :: 0 <= j < i ==> exp[j] == Exp(j)
    {
      ExpPeriod(i);
      exp := exp[i := exp[i - 255]];
      i := i + 1;
    }
  }

  /** _mul: the table lookup computes the field product of section 4.2 of FIPS 197. */
  method TableMul(exp: seq<Byte>, log: seq<nat>, a: Byte, b: Byte) returns (p: Byte)
    requires Tables(exp, log)
    ensures p == Times(a, b)
  {
    IsField();
    ProductByLogs(GF(), a, b);
    if a == ZERO || b == ZERO { return ZERO; }
    p := exp[log[Value(a)] + log[Value(b)]];
  }

  /** _inv: the table lookup inverts every nonzero byte. */
  method TableInv(exp: seq<Byte>, log: seq<nat>, a: Byte) returns (i: Byte)
    requires Tables(exp, log)
    ensures i == GF().Inv(a) && (a != ZERO ==> Times(a, i) == ONE)
  {
    IsField();
    if a != ZERO { MulInverse(GF(), a); }
    i := exp[255 - log[Value(a)]];
  }
}
