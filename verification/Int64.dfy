/** Two's-complement 64-bit arithmetic, as numpy int64 and Rust wrapping_add perform it. */
module Int64 {

  const MIN: int := -0x8000_0000_0000_0000
  const MAX: int := 0x7FFF_FFFF_FFFF_FFFF
  const TWO64: int := 0x1_0000_0000_0000_0000

  predicate InRange(x: int) { MIN <= x <= MAX }

  type int64 = x: int | MIN <= x <= MAX

  /** The representative of x modulo 2^64 in [MIN, MAX]. */
  function Wrap(x: int): (r: int64)
    ensures InRange(x) ==> r == x
  {
    (x - MIN) % TWO64 + MIN
  }

  function Add(a: int, b: int): int64 { Wrap(a + b) }

  lemma {:induction false} WrapAbsorbs(a: int, b: int)
    ensures Wrap(Wrap(a) + b) == Wrap(a + b)
  {
  }

  lemma {:induction false} AddZero(a: int64)
    ensures Add(a, 0) == a
  {
  }

  lemma {:induction false} AddCancels(a: int, b: int64, c: int64)
    ensures Add(a, b) == Add(a, c) <==> b == c
  {
  }
}
