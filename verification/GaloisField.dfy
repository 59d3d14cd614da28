/**
 * GF(256) as rig/da.py builds it: exponent and logarithm tables of the
 * generator 3, held to the field product of section 4.2 of FIPS 197.
 */
module GaloisField {

  datatype Bit = O | I

  function Flip(x: Bit, y: Bit): Bit { if x == y then O else I }

  lemma {:induction false} FlipAssoc(x: Bit, y: Bit, z: Bit)
    ensures Flip(Flip(x, y), z) == Flip(x, Flip(y, z)) && Flip(x, y) == Flip(y, x)
  {
  }

  lemma {:induction false} FlipExchange(p: Bit, q: Bit, r: Bit, s: Bit)
    ensures Flip(Flip(p, q), Flip(r, s)) == Flip(Flip(p, r), Flip(q, s))
  {
  }

  /** A byte by its bits, most significant first. */
  datatype Byte = Byte(b7: Bit, b6: Bit, b5: Bit, b4: Bit, b3: Bit, b2: Bit, b1: Bit, b0: Bit)

  const ZERO: Byte := Byte(O, O, O, O, O, O, O, O)
  const ONE: Byte := Byte(O, O, O, O, O, O, O, I)

  function Xor(a: Byte, b: Byte): Byte {
    Byte(Flip(a.b7, b.b7), Flip(a.b6, b.b6), Flip(a.b5, b.b5), Flip(a.b4, b.b4),
         Flip(a.b3, b.b3), Flip(a.b2, b.b2), Flip(a.b1, b.b1), Flip(a.b0, b.b0))
  }

  lemma {:induction false} XorUnits(a: Byte)
    ensures Xor(a, ZERO) == a && Xor(ZERO, a) == a && Xor(a, a) == ZERO
  {
  }

  lemma {:induction false} XorComm(a: Byte, b: Byte)
    ensures Xor(a, b) == Xor(b, a)
  {
  }

  lemma {:induction false} XorAssoc(a: Byte, b: Byte, c: Byte)
    ensures Xor(Xor(a, b), c) == Xor(a, Xor(b, c))
  {
    FlipAssoc(a.b7, b.b7, c.b7);
    FlipAssoc(a.b6, b.b6, c.b6);
    FlipAssoc(a.b5, b.b5, c.b5);
    FlipAssoc(a.b4, b.b4, c.b4);
    FlipAssoc(a.b3, b.b3, c.b3);
    FlipAssoc(a.b2, b.b2, c.b2);
    FlipAssoc(a.b1, b.b1, c.b1);
    FlipAssoc(a.b0, b.b0, c.b0);
  }

  lemma {:induction false} XorCancel(a: Byte, b: Byte)
    ensures Xor(a, b) == ZERO <==> a == b
  {
  }

  // ---- the reference product ----

  /** xtime of FIPS 197: multiplication by x modulo 0x11b. */
  function XTime(a: Byte): Byte {
    Byte(a.b6, a.b5, a.b4, Flip(a.b3, a.b7), Flip(a.b2, a.b7), a.b1, Flip(a.b0, a.b7), a.b7)
  }

  lemma {:induction false} XTimeLinear(a: Byte, b: Byte)
    ensures XTime(Xor(a, b)) == Xor(XTime(a), XTime(b))
  {
    FlipExchange(a.b3, b.b3, a.b7, b.b7);
    FlipExchange(a.b2, b.b2, a.b7, b.b7);
    FlipExchange(a.b0, b.b0, a.b7, b.b7);
  }

  function Pick(x: Bit, b: Byte): Byte { if x.I? then b else ZERO }

  /** Shift and add over the bits of a factor, lowest first. */
  function TimesBits(bits: seq<Bit>, b: Byte): Byte {
    if bits == [] then ZERO else Xor(Pick(bits[0], b), TimesBits(bits[1..], XTime(b)))
  }

  function Bits(a: Byte): seq<Bit> { [a.b0, a.b1, a.b2, a.b3, a.b4, a.b5, a.b6, a.b7] }

  /** The field product. */
  function Times(a: Byte, b: Byte): Byte { TimesBits(Bits(a), b) }

  lemma {:induction false} Exchange(p: Byte, q: Byte, r: Byte, s: Byte)
    ensures Xor(Xor(p, q), Xor(r, s)) == Xor(Xor(p, r), Xor(q, s))
  {
    FlipExchange(p.b7, q.b7, r.b7, s.b7);
    FlipExchange(p.b6, q.b6, r.b6, s.b6);
    FlipExchange(p.b5, q.b5, r.b5, s.b5);
    FlipExchange(p.b4, q.b4, r.b4, s.b4);
    FlipExchange(p.b3, q.b3, r.b3, s.b3);
    FlipExchange(p.b2, q.b2, r.b2, s.b2);
    FlipExchange(p.b1, q.b1, r.b1, s.b1);
    FlipExchange(p.b0, q.b0, r.b0, s.b0);
  }

  lemma {:induction false} PickLinear(x: Bit, b: Byte, c: Byte)
    ensures Pick(x, Xor(b, c)) == Xor(Pick(x, b), Pick(x, c)) && XTime(Pick(x, b)) == Pick(x, XTime(b))
  {
    XorUnits(ZERO);
  }

  lemma {:induction false} TimesBitsLinear(bits: seq<Bit>, b: Byte, c: Byte)
    ensures TimesBits(bits, Xor(b, c)) == Xor(TimesBits(bits, b), TimesBits(bits, c))
  {
    if bits == [] {
      XorUnits(ZERO);
    } else {
      var rest := bits[1..];
      XTimeLinear(b, c);
      PickLinear(bits[0], b, c);
      TimesBitsLinear(rest, XTime(b), XTime(c));
      Exchange(Pick(bits[0], b), Pick(bits[0], c), TimesBits(rest, XTime(b)), TimesBits(rest, XTime(c)));
    }
  }

  lemma {:induction false} TimesBitsShift(bits: seq<Bit>, b: Byte)
    ensures TimesBits(bits, XTime(b)) == XTime(TimesBits(bits, b))
  {
    if bits != [] {
      PickLinear(bits[0], b, b);
      TimesBitsShift(bits[1..], XTime(b));
      XTimeLinear(Pick(bits[0], b), TimesBits(bits[1..], XTime(b)));
    }
  }

  // ---- powers of the generator ----

  /** The table loop's step, x ^= x << 1 reduced by 0x11b: multiplication by 3. */
  function Triple(a: Byte): Byte { Xor(a, XTime(a)) }

  lemma {:induction false} TripleLinear(a: Byte, b: Byte)
    ensures Triple(Xor(a, b)) == Xor(Triple(a), Triple(b))
  {
    XTimeLinear(a, b);
    Exchange(a, b, XTime(a), XTime(b));
  }

  lemma {:induction false} TripleKernel(a: Byte)
    requires Triple(a) == ZERO
    ensures a == ZERO
  {
  }

  lemma {:induction false} TripleInjective(a: Byte, b: Byte)
    requires Triple(a) == Triple(b)
    ensures a == b
  {
    TripleLinear(a, b);
    XorUnits(Triple(a));
    TripleKernel(Xor(a, b));
    XorCancel(a, b);
  }

  /** a times the n-th power of 3. */
  function Scale(n: nat, a: Byte): Byte {
    if n == 0 then a else Triple(Scale(n - 1, a))
  }

  function Exp(n: nat): Byte { Scale(n, ONE) }

  lemma {:induction false} ScaleAdds(m: nat, n: nat, a: Byte)
    ensures Scale(m + n, a) == Scale(m, Scale(n, a))
  {
    if m > 0 { ScaleAdds(m - 1, n, a); }
  }

  lemma {:induction false} ScaleLinear(n: nat, a: Byte, b: Byte)
    ensures Scale(n, Xor(a, b)) == Xor(Scale(n, a), Scale(n, b))
  {
    if n > 0 {
      ScaleLinear(n - 1, a, b);
      TripleLinear(Scale(n - 1, a), Scale(n - 1, b));
    }
  }

  lemma {:induction false} ScaleInjective(n: nat, a: Byte, b: Byte)
    requires Scale(n, a) == Scale(n, b)
    ensures a == b
  {
    if n > 0 {
      TripleInjective(Scale(n - 1, a), Scale(n - 1, b));
      ScaleInjective(n - 1, a, b);
    }
  }

  lemma {:induction false} ExpNonzero(n: nat)
    ensures Exp(n) != ZERO
  {
    if n > 0 {
      ExpNonzero(n - 1);
      if Exp(n) == ZERO { TripleKernel(Exp(n - 1)); }
    }
  }

  /** One bit of the shift-and-add loop. */
  lemma {:induction false} AddBit(x: Bit, rest: seq<Bit>, unit: Byte, part: Byte)
    requires TimesBits(rest, XTime(unit)) == part
    ensures TimesBits([x] + rest, unit) == Xor(Pick(x, unit), part)
  {
    assert ([x] + rest)[1..] == rest;
  }

  lemma {:induction false} FlipZero(x: Bit)
    ensures Flip(O, x) == x && Flip(x, O) == x
  {
  }

  lemma {:induction false} JoinHigh(a: Byte)
    ensures Xor(Pick(a.b7, Byte(I, O, O, O, O, O, O, O)), ZERO) == Byte(a.b7, O, O, O, O, O, O, O)
    ensures Xor(Pick(a.b6, Byte(O, I, O, O, O, O, O, O)), Byte(a.b7, O, O, O, O, O, O, O))
      == Byte(a.b7, a.b6, O, O, O, O, O, O)
    ensures Xor(Pick(a.b5, Byte(O, O, I, O, O, O, O, O)), Byte(a.b7, a.b6, O, O, O, O, O, O))
      == Byte(a.b7, a.b6, a.b5, O, O, O, O, O)
    ensures Xor(Pick(a.b4, Byte(O, O, O, I, O, O, O, O)), Byte(a.b7, a.b6, a.b5, O, O, O, O, O))
      == Byte(a.b7, a.b6, a.b5, a.b4, O, O, O, O)
  {
    FlipZero(a.b7);
    FlipZero(a.b6);
    FlipZero(a.b5);
    FlipZero(a.b4);
  }

  lemma {:induction false} JoinMiddle(a: Byte)
    ensures Xor(Pick(a.b3, Byte(O, O, O, O, I, O, O, O)), Byte(a.b7, a.b6, a.b5, a.b4, O, O, O, O))
      == Byte(a.b7, a.b6, a.b5, a.b4, a.b3, O, O, O)
    ensures Xor(Pick(a.b2, Byte(O, O, O, O, O, I, O, O)), Byte(a.b7, a.b6, a.b5, a.b4, a.b3, O, O, O))
      == Byte(a.b7, a.b6, a.b5, a.b4, a.b3, a.b2, O, O)
  {
    FlipZero(a.b7);
    FlipZero(a.b6);
    FlipZero(a.b5);
    FlipZero(a.b4);
    FlipZero(a.b3);
    FlipZero(a.b2);
    FlipZero(a.b1);
    FlipZero(a.b0);
  }

  lemma {:induction false} JoinLow(a: Byte)
    ensures Xor(Pick(a.b1, Byte(O, O, O, O, O, O, I, O)), Byte(a.b7, a.b6, a.b5, a.b4, a.b3, a.b2, O, O))
      == Byte(a.b7, a.b6, a.b5, a.b4, a.b3, a.b2, a.b1, O)
    ensures Xor(Pick(a.b0, ONE), Byte(a.b7, a.b6, a.b5, a.b4, a.b3, a.b2, a.b1, O)) == a
  {
    FlipZero(a.b7);
    FlipZero(a.b6);
    FlipZero(a.b5);
    FlipZero(a.b4);
    FlipZero(a.b3);
    FlipZero(a.b2);
    FlipZero(a.b1);
    FlipZero(a.b0);
  }

  lemma {:induction false} TimesHigh(a: Byte)
    ensures TimesBits([a.b4, a.b5, a.b6, a.b7], Byte(O, O, O, I, O, O, O, O))
      == Byte(a.b7, a.b6, a.b5, a.b4, O, O, O, O)
  {
    JoinHigh(a);
    AddBit(a.b7, [], Byte(I, O, O, O, O, O, O, O), Byte(O, O, O, O, O, O, O, O));
    assert [a.b7] + [] == [a.b7];
    AddBit(a.b6, [a.b7], Byte(O, I, O, O, O, O, O, O), Byte(a.b7, O, O, O, O, O, O, O));
    assert [a.b6] + [a.b7] == [a.b6, a.b7];
    AddBit(a.b5, [a.b6, a.b7], Byte(O, O, I, O, O, O, O, O), Byte(a.b7, a.b6, O, O, O, O, O, O));
    assert [a.b5] + [a.b6, a.b7] == [a.b5, a.b6, a.b7];
    AddBit(a.b4, [a.b5, a.b6, a.b7], Byte(O, O, O, I, O, O, O, O), Byte(a.b7, a.b6, a.b5, O, O, O, O, O));
    assert [a.b4] + [a.b5, a.b6, a.b7] == [a.b4, a.b5, a.b6, a.b7];
  }

  lemma {:induction false} TimesMiddle(a: Byte)
    ensures TimesBits([a.b2, a.b3, a.b4, a.b5, a.b6, a.b7], Byte(O, O, O, O, O, I, O, O))
      == Byte(a.b7, a.b6, a.b5, a.b4, a.b3, a.b2, O, O)
  {
    TimesHigh(a);
    JoinMiddle(a);
    AddBit(a.b3, [a.b4, a.b5, a.b6, a.b7], Byte(O, O, O, O, I, O, O, O), Byte(a.b7, a.b6, a.b5, a.b4, O, O, O, O));
    assert [a.b3] + [a.b4, a.b5, a.b6, a.b7] == [a.b3, a.b4, a.b5, a.b6, a.b7];
    AddBit(a.b2, [a.b3, a.b4, a.b5, a.b6, a.b7], Byte(O, O, O, O, O, I, O, O),
           Byte(a.b7, a.b6, a.b5, a.b4, a.b3, O, O, O));
    assert [a.b2] + [a.b3, a.b4, a.b5, a.b6, a.b7] == [a.b2, a.b3, a.b4, a.b5, a.b6, a.b7];
  }

  lemma {:induction false} TimesLow(a: Byte)
    ensures TimesBits([a.b1, a.b2, a.b3, a.b4, a.b5, a.b6, a.b7], Byte(O, O, O, O, O, O, I, O))
      == Byte(a.b7, a.b6, a.b5, a.b4, a.b3, a.b2, a.b1, O)
  {
    TimesMiddle(a);
    JoinLow(a);
    AddBit(a.b1, [a.b2, a.b3, a.b4, a.b5, a.b6, a.b7], Byte(O, O, O, O, O, O, I, O),
           Byte(a.b7, a.b6, a.b5, a.b4, a.b3, a.b2, O, O));
    assert [a.b1] + [a.b2, a.b3, a.b4, a.b5, a.b6, a.b7] == [a.b1, a.b2, a.b3, a.b4, a.b5, a.b6, a.b7];
  }

  lemma {:induction false} TimesAll(a: Byte, rest: seq<Bit>, low: Byte)
    requires rest == [a.b1, a.b2, a.b3, a.b4, a.b5, a.b6, a.b7]
    requires low == Byte(a.b7, a.b6, a.b5, a.b4, a.b3, a.b2, a.b1, O)
    requires TimesBits(rest, Byte(O, O, O, O, O, O, I, O)) == low
    ensures TimesBits([a.b0] + rest, ONE) == a
  {
    AddBit(a.b0, rest, ONE, low);
    JoinLow(a);
  }

  lemma {:induction false} TimesOne(a: Byte)
    ensures Times(a, ONE) == a
  {
    var rest := [a.b1, a.b2, a.b3, a.b4, a.b5, a.b6, a.b7];
    TimesLow(a);
    TimesAll(a, rest, Byte(a.b7, a.b6, a.b5, a.b4, a.b3, a.b2, a.b1, O));
    assert [a.b0] + rest == Bits(a);
  }

  /** Scaling is the field product with a power of 3. */
  lemma {:induction false} ScaleIsTimes(n: nat, a: Byte)
    ensures Scale(n, a) == Times(a, Exp(n))
  {
    if n == 0 {
      TimesOne(a);
    } else {
      ScaleIsTimes(n - 1, a);
      TimesBitsLinear(Bits(a), Exp(n - 1), XTime(Exp(n - 1)));
      TimesBitsShift(Bits(a), Exp(n - 1));
    }
  }

  // ---- the generator has order 255 ----

  function Triple5(a: Byte): Byte { Triple(Triple(Triple(Triple(Triple(a))))) }
  function Triple17(a: Byte): Byte { Triple5(Triple5(Triple5(Triple(Triple(a))))) }

  lemma {:induction false} Scale5(a: Byte)
    ensures Scale(5, a) == Triple5(a)
  {
  }

  lemma {:induction false} Scale17(a: Byte)
    ensures Scale(17, a) == Triple17(a)
  {
    var b := Triple(Triple(a));
    assert Scale(2, a) == b;
    Scale5(b);
    Scale5(Triple5(b));
    Scale5(Triple5(Triple5(b)));
    ScaleAdds(5, 2, a);
    ScaleAdds(5, 7, a);
    ScaleAdds(5, 12, a);
  }

  /** Seventeen more steps of the table. */
  lemma {:induction false} Climb(n: nat, a: Byte)
    requires Exp(n) == a
    ensures Exp(n + 17) == Triple17(a)
  {
    ScaleAdds(17, n, ONE);
    Scale17(a);
  }

  const E17: Byte := Byte(I, I, I, O, O, O, O, I)
  const E34: Byte := Byte(O, I, O, I, I, I, O, O)
  const E51: Byte := Byte(O, O, O, O, I, I, O, O)

  lemma {:induction false} EvalTo34()
    ensures Triple17(ONE) == E17 && Triple17(E17) == E34
  {
  }

  lemma {:induction false} EvalTo68()
    ensures Triple17(E34) == E51 && Triple17(E51) == Xor(E17, ONE)
  {
  }

  /** The 17th power g satisfies g^4 = g + 1. */
  lemma {:induction false} Fourth(zero: nat)
    requires Exp(zero) == ONE
    ensures Exp(zero + 17) == E17 && Exp(zero + 34) == E34 && Exp(zero + 51) == E51 && Exp(zero + 68) == Xor(E17, ONE)
  {
    EvalTo34();
    EvalTo68();
    Climb(zero, ONE);
    Climb(zero + 17, E17);
    Climb(zero + 34, E34);
    Climb(zero + 51, E51);
  }

  lemma {:induction false} Recurrence(zero: nat, n: nat)
    requires Exp(zero) == ONE && 2 * zero == 0
    ensures Exp(n + 68) == Xor(Exp(n + 17), Exp(n))
  {
    Fourth(zero);
    ScaleAdds(n, zero + 68, ONE);
    ScaleAdds(n, zero + 17, ONE);
    ScaleLinear(n, E17, ONE);
  }

  lemma {:induction false} Recurrence2(zero: nat, n: nat)
    requires Exp(zero) == ONE && 2 * zero == 0
    ensures Exp(n + 136) == Xor(Exp(n + 34), Exp(n))
  {
    Recurrence(zero, n + 68);
    Recurrence(zero, n + 17);
    Recurrence(zero, n);
    XorExtremes(Exp(n + 34), Exp(n + 17), Exp(n));
  }

  lemma {:induction false} XorExtremes(a: Byte, b: Byte, c: Byte)
    ensures Xor(Xor(a, b), Xor(b, c)) == Xor(a, c) && Xor(Xor(a, b), b) == a
  {
    Exchange(a, b, b, c);
    XorComm(b, c);
    Exchange(a, b, c, b);
    XorAssoc(a, b, b);
    XorUnits(b);
    XorUnits(a);
    XorUnits(Xor(a, c));
  }

  /** g^16 = g. */
  lemma {:induction false} Recurrence4(zero: nat, n: nat)
    requires Exp(zero) == ONE && 2 * zero == 0
    ensures Exp(n + 272) == Exp(n + 17)
  {
    Recurrence2(zero, n + 136);
    Recurrence2(zero, n + 34);
    Recurrence2(zero, n);
    XorExtremes(Exp(n + 68), Exp(n + 34), Exp(n));
    Recurrence(zero, n);
    XorExtremes(Exp(n + 17), Exp(n), Exp(n));
  }

  /** 3 has order 255: its 255th power is one, and its 15th, 51st and 85th are not. */
  lemma {:induction false} Order(n: nat)
    ensures 2 * n == 2 * 255 ==> Exp(n) == ONE
    ensures 17 * n == 255 || 5 * n == 255 || 3 * n == 255 ==> Exp(n) != ONE
  {
    var zero: nat :| 2 * zero == 0;
    Fourth(zero);
    if 2 * n == 2 * 255 {
      Recurrence4(zero, zero);
      ScaleAdds(17, n, ONE);
      ScaleAdds(17, zero, ONE);
      ScaleInjective(17, Exp(n), ONE);
    } else if 17 * n == 255 {
      assert Exp(n + 2) == Triple(Triple(Exp(n)));
    } else if 3 * n == 255 {
      Recurrence(zero, zero + 17);
    }
  }
}
