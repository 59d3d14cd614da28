/** Products and quotients of variables, each step by hand. */
module Division {

  lemma {:induction false} MulMonotone(q: nat, x: int, y: int)
    requires x <= y
    ensures q * x <= q * y
  {
  }

  lemma {:induction false} DivMod(l: nat, n: nat, e: nat)
    requires e < n
    ensures (l * n + e) / n == l && (l * n + e) % n == e
  {
    var x := l * n + e;
    var q, r := x / n, x % n;
    assert x == n * q + r;
    if q < l { MulMonotone(n, q + 1, l); }
    if q > l { MulMonotone(n, l + 1, q); }
  }

  lemma {:induction false} AddDivisor(y: nat, n: nat)
    requires n > 0
    ensures (y + n) / n == y / n + 1 && (y + n) % n == y % n
  {
    var q, r := y / n, y % n;
    assert y + n == (q + 1) * n + r;
    DivMod(q + 1, n, r);
  }
}
