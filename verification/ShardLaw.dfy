/** What a shard is, byte by byte and on the body itself: values of a polynomial whose coefficients lie a row apart. */
module ShardLaw {
  import opened Division
  import opened GaloisField
  import opened FieldLaws

  type Row = seq<Byte>

  /** Byte i of the body; past its end, zero. */
  ghost function ByteAt(body: Row, i: nat): Byte { if i < |body| then body[i] else ZERO }

  ghost function Power(f: Field, t: Byte, n: nat): Byte { if n == 0 then ONE else f.times(t, Power(f, t, n - 1)) }

  /** The sum over r < k of t^r times byte r * len + c of the body. */
  ghost function Blend(f: Field, body: Row, len: nat, t: Byte, c: nat, k: nat): Byte {
    if k == 0 then ZERO
    else f.plus(Blend(f, body, len, t, c, k - 1), f.times(Power(f, t, k - 1), ByteAt(body, (k - 1) * len + c)))
  }

  /** k rows of len bytes hold the body, and no shorter rows do. */
  ghost predicate Shortest(body: Row, k: nat, len: nat) {
    |body| <= k * len && (len > 0 ==> k * (len - 1) < |body|)
  }

  /** shard is the shard of the body at point t. */
  ghost predicate Encodes(f: Field, body: Row, k: nat, t: Byte, shard: Row) {
    Shortest(body, k, |shard|) && forall c :: 0 <= c < |shard| ==> shard[c] == Blend(f, body, |shard|, t, c, k)
  }

  /** shard is shard number i of the body: its point is the byte i + 1. */
  ghost predicate IsShard(f: Field, body: Row, k: nat, i: nat, shard: Row) {
    forall t: Byte :: Value(t) == i + 1 ==> Encodes(f, body, k, t, shard)
  }

  lemma {:induction false} OneLength(body: Row, k: nat, m: nat, n: nat)
    requires Shortest(body, k, m) && Shortest(body, k, n)
    ensures m == n
  {
    if m < n { MulMonotone(k, m, n - 1); }
    if n < m { MulMonotone(k, n, m - 1); }
  }
}
