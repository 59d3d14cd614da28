/** Reed-Solomon dispersal of rig/da.py: any k of the n shards give the body back, byte for byte. */
module ErasureCode {
  import opened Wrappers
  import opened Division
  import Ordering
  import opened GaloisField
  import opened FieldLaws
  import opened LinearAlgebra
  import opened Vandermonde
  import opened ShardLaw

  datatype Result = Ok(body: Row) | Err(message: string)

  // ---- data rows ----

  /** The body with zero bytes up to a multiple of k. */
  function Padded(body: Row, k: nat): (d: Row)
    requires k > 0
    ensures |d| == RowLen(body, k) * k && body <= d
  {
    var pad := (k - |body| % k) % k;
    PadFits(|body|, k);
    body + seq(pad, _ => ZERO)
  }

  /** The number of bytes in a shard. */
  function RowLen(body: Row, k: nat): nat
    requires k > 0
  {
    (|body| + (k - |body| % k) % k) / k
  }

  lemma {:induction false} PadFits(n: nat, k: nat)
    requires k > 0
    ensures var total := n + (k - n % k) % k; total == (total / k) * k
  {
    var q, e := n / k, n % k;
    assert n == q * k + e;
    if e == 0 {
      DivMod(1, k, 0);
      assert (k - e) % k == 0;
      DivMod(q, k, 0);
    } else {
      DivMod(0, k, k - e);
      assert (k - e) % k == k - e;
      assert q * k + e + (k - e) == (q + 1) * k;
      DivMod(q + 1, k, 0);
    }
  }

  /** n consecutive rows of equal length. */
  function Chunks(d: Row, len: nat, n: nat): (rows: seq<Row>)
    requires |d| == len * n
    ensures |rows| == n && forall r :: 0 <= r < n ==> |rows[r]| == len
    decreases n
  {
    if n == 0 then []
    else
      assert len * n == len + len * (n - 1);
      [d[..len]] + Chunks(d[len..], len, n - 1)
  }

  /** The padded body as k rows. */
  function DataRows(body: Row, k: nat): (rows: seq<Row>)
    requires k > 0
    ensures |rows| == k && forall r :: 0 <= r < k ==> |rows[r]| == RowLen(body, k)
  {
    Chunks(Padded(body, k), RowLen(body, k), k)
  }

  /** Byte c of a row; a row of one byte is stretched, as numpy does. */
  function Cell(row: Row, c: nat): Byte {
    if c < |row| then row[c] else if |row| == 1 then row[0] else ZERO
  }

  /** Column c of the rows. */
  function Column(rows: seq<Row>, c: nat): (x: Row)
    ensures |x| == |rows| && forall r :: 0 <= r < |rows| ==> x[r] == Cell(rows[r], c)
  {
    seq(|rows|, r requires 0 <= r < |rows| => Cell(rows[r], c))
  }

  /** The linear combination of rows, byte column by byte column. */
  function Combine(f: Field, coeffs: Row, rows: seq<Row>, len: nat): (out: Row)
    requires |coeffs| == |rows|
    ensures |out| == len && forall c :: 0 <= c < len ==> out[c] == Dot(f, coeffs, Column(rows, c), |rows|)
  {
    seq(len, c requires 0 <= c < len => Dot(f, coeffs, Column(rows, c), |rows|))
  }

  /** The row can be added into one of length len. */
  predicate Fits(row: Row, len: nat) { |row| == len || |row| == 1 }

  function Stretched(row: Row, len: nat): (r: Row)
    ensures |r| == len && forall c :: 0 <= c < len ==> r[c] == Cell(row, c)
  {
    seq(len, c requires 0 <= c < len => Cell(row, c))
  }

  /** Some used row has the wrong length. */
  ghost predicate Misfit(coeffs: Row, rows: seq<Row>, len: nat, n: nat)
    requires n <= |rows| == |coeffs|
  {
    exists r :: 0 <= r < n && coeffs[r] != ZERO && !Fits(rows[r], len)
  }

  /** _gf_combine: accumulate one scaled row after another, skipping zero coefficients. */
  method GfCombine(f: Field, coeffs: Row, rows: seq<Row>) returns (out: Option<Row>)
    requires f.Laws() && |coeffs| == |rows| > 0
    ensures out.None? <==> Misfit(coeffs, rows, |rows[0]|, |rows|)
    ensures out.Some? ==> out.value == Combine(f, coeffs, rows, |rows[0]|)
  {
    var len := |rows[0]|;
    var acc: Row := seq(len, _ => ZERO);
    for r := 0 to |rows|
      invariant !Misfit(coeffs, rows, len, r)
      invariant |acc| == len && forall c :: 0 <= c < len ==> acc[c] == Dot(f, coeffs, Column(rows, c), r)
    {
      if coeffs[r] != ZERO {
        if !Fits(rows[r], len) { return None; }
        acc := AddScaled(f, acc, coeffs[r], Stretched(rows[r], len));
      } else {
        forall c | 0 <= c < len ensures acc[c] == Dot(f, coeffs, Column(rows, c), r + 1) {
          PlusZero(f, Cell(rows[r], c));
          PlusZero(f, acc[c]);
        }
      }
    }
    return Some(acc);
  }

  /** Shard i of a body. */
  function Shard(f: Field, body: Row, k: nat, i: nat): (shard: Row)
    requires k > 0
    ensures |shard| == RowLen(body, k)
  {
    Combine(f, VRow(f, i, k), DataRows(body, k), RowLen(body, k))
  }

  // ---- the shard, byte by byte ----

  lemma {:induction false} PadIs(n: nat, k: nat)
    requires k > 0
    ensures (k - n % k) % k == if n % k == 0 then 0 else k - n % k
  {
    if n % k == 0 { DivMod(1, k, 0); } else { DivMod(0, k, k - n % k); }
  }

  lemma {:induction false} RowLenShortest(body: Row, k: nat)
    requires k > 0
    ensures Shortest(body, k, RowLen(body, k))
  {
    var len := RowLen(body, k);
    PadFits(|body|, k);
    PadIs(|body|, k);
    assert k * len == len * k && (len > 0 ==> k * (len - 1) == len * k - k);
  }

  lemma {:induction false} ChunkByte(d: Row, len: nat, n: nat, r: nat, c: nat)
    requires |d| == len * n && r < n && c < len
    ensures r * len + c < |d| && Chunks(d, len, n)[r][c] == d[r * len + c]
    decreases n
  {
    OneMore(len, n);
    if r > 0 {
      OneMore(len, r);
      ChunkByte(d[len..], len, n - 1, r - 1, c);
    }
  }

  lemma {:induction false} OneMore(len: nat, n: nat)
    requires n > 0
    ensures len * n == len + len * (n - 1) && n * len == len + (n - 1) * len
    ensures len * (n - 1) >= 0
  {
  }

  /** Byte c of data row r is byte r * len + c of the body. */
  lemma {:induction false} DataByte(body: Row, k: nat, r: nat, c: nat)
    requires k > 0 && r < k && c < RowLen(body, k)
    ensures DataRows(body, k)[r][c] == ByteAt(body, r * RowLen(body, k) + c)
  {
    ChunkByte(Padded(body, k), RowLen(body, k), k, r, c);
  }

  lemma {:induction false} PowerIsPow(f: Field, t: Byte, n: nat)
    ensures Power(f, t, n) == Pow(f, t, n)
  {
    if n > 0 { PowerIsPow(f, t, n - 1); }
  }

  lemma {:induction false} EntryIsPower(f: Field, i: nat, k: nat, j: nat)
    requires f.Laws() && i < 255 && j < k
    ensures VRow(f, i, k)[j] == Power(f, ByteOf(i + 1), j)
  {
    PointNonzero(i);
    ExpMod(f, f.log(ByteOf(i + 1)) * j);
    ExpPow(f, ByteOf(i + 1), j);
    PowerIsPow(f, ByteOf(i + 1), j);
  }

  lemma {:induction false} DotIsBlend(f: Field, body: Row, k: nat, i: nat, c: nat, n: nat)
    requires f.Laws() && i < 255 && 0 < k && n <= k && c < RowLen(body, k)
    ensures Dot(f, VRow(f, i, k), Column(DataRows(body, k), c), n)
      == Blend(f, body, RowLen(body, k), ByteOf(i + 1), c, n)
  {
    if n > 0 {
      DotIsBlend(f, body, k, i, c, n - 1);
      DataByte(body, k, n - 1, c);
      EntryIsPower(f, i, k, n - 1);
    }
  }

  lemma {:induction false} ShardAtPoint(f: Field, body: Row, k: nat, i: nat, t: Byte, shard: Row)
    requires f.Laws() && 0 < k && i < 255 && t == ByteOf(i + 1)
    ensures Encodes(f, body, k, t, shard) <==> shard == Shard(f, body, k, i)
  {
    var len := RowLen(body, k);
    RowLenShortest(body, k);
    forall c | 0 <= c < len ensures Shard(f, body, k, i)[c] == Blend(f, body, len, t, c, k) {
      DotIsBlend(f, body, k, i, c, k);
    }
    if Encodes(f, body, k, t, shard) { OneLength(body, k, len, |shard|); }
  }

  /** Shard i is the shard of the body at the byte i + 1, and nothing else is. */
  lemma {:induction false} ShardIs(f: Field, body: Row, k: nat, i: nat, shard: Row)
    requires f.Laws() && 0 < k && i < 255
    ensures IsShard(f, body, k, i, shard) <==> shard == Shard(f, body, k, i)
  {
    var u := ByteOf(i + 1);
    ValueOfByte(i + 1);
    forall t: Byte | Value(t) == i + 1 ensures t == u { ValueInjective(t, u); }
    ShardAtPoint(f, body, k, i, u, shard);
  }

  /** encode: n shards of which any k suffice. */
  method Encode(f: Field, body: Row, k: nat, n: nat) returns (shards: seq<Row>)
    requires f.Laws() && 0 < k <= n <= 255
    ensures |shards| == n && forall i :: 0 <= i < n ==> shards[i] == Shard(f, body, k, i)
    ensures forall i :: 0 <= i < n ==> IsShard(f, body, k, i, shards[i])
  {
    shards := [];
    for i := 0 to n
      invariant |shards| == i && forall j :: 0 <= j < i ==> shards[j] == Shard(f, body, k, j)
    {
      var shard := GfCombine(f, VRow(f, i, k), DataRows(body, k));
      shards := shards + [shard.value];
    }
    forall i | 0 <= i < n ensures IsShard(f, body, k, i, shards[i]) { ShardIs(f, body, k, i, shards[i]); }
  }

  // ---- choosing shards ----

  /** The k smallest indices on offer. */
  function Chosen(keys: set<nat>, k: nat): (idx: seq<nat>)
    requires k <= |keys|
    ensures |idx| == k && forall j :: 0 <= j < k ==> idx[j] in keys
    ensures forall i, j :: 0 <= i < j < k ==> idx[i] < idx[j]
  {
    Ordering.AscendingLists(keys);
    Ordering.Ascending(keys)[..k]
  }

  lemma {:induction false} ChosenSmallest(keys: set<nat>, k: nat, x: nat, j: nat)
    requires k <= |keys| && x in keys && x !in Chosen(keys, k) && j < k
    ensures Chosen(keys, k)[j] < x
  {
    Ordering.AscendingLists(keys);
    var all := Ordering.Ascending(keys);
    var i :| 0 <= i < |all| && all[i] == x;
    assert forall m :: 0 <= m < k ==> all[m] == Chosen(keys, k)[m];
  }

  // ---- recovering the body ----

  function Join(rows: seq<Row>): Row { if rows == [] then [] else rows[0] + Join(rows[1..]) }

  lemma {:induction false} JoinChunks(d: Row, len: nat, n: nat)
    requires |d| == len * n
    ensures Join(Chunks(d, len, n)) == d
    decreases n
  {
    if n > 0 {
      assert len * n == len + len * (n - 1);
      var rows := Chunks(d, len, n);
      JoinChunks(d[len..], len, n - 1);
      assert rows[0] == d[..len] && rows[1..] == Chunks(d[len..], len, n - 1);
      assert d == d[..len] + d[len..];
    }
  }

  /** Column by column, the chosen shards are the image of the data under the chosen rows. */
  lemma {:induction false} ShardColumn(f: Field, body: Row, k: nat, idx: seq<nat>, cols: seq<Row>, c: nat)
    requires k > 0 && |idx| == |cols| == k && c < RowLen(body, k)
    requires forall j :: 0 <= j < k ==> |cols[j]| == RowLen(body, k) && cols[j] == Shard(f, body, k, idx[j])
    ensures Column(cols, c) == Image(f, Rows(f, idx, k), Column(DataRows(body, k), c))
  {
    var x, m := Column(DataRows(body, k), c), Rows(f, idx, k);
    forall j | 0 <= j < k ensures Column(cols, c)[j] == Image(f, m, x)[j] {
      assert cols[j][c] == Dot(f, VRow(f, idx[j], k), x, k);
    }
  }

  lemma {:induction false} RecoverRow(f: Field, body: Row, k: nat, idx: seq<nat>, cols: seq<Row>, inv: seq<Row>, r: nat)
    requires k > 0 && |idx| == |cols| == k && r < k
    requires forall j :: 0 <= j < k ==> |cols[j]| == RowLen(body, k) && cols[j] == Shard(f, body, k, idx[j])
    requires Shape(Rows(f, idx, k), k, k) && LeftInverse(f, inv, Rows(f, idx, k), k)
    ensures Combine(f, inv[r], cols, RowLen(body, k)) == DataRows(body, k)[r]
  {
    var len, out := RowLen(body, k), Combine(f, inv[r], cols, RowLen(body, k));
    forall c | 0 <= c < len ensures out[c] == DataRows(body, k)[r][c] {
      var x := Column(DataRows(body, k), c);
      ShardColumn(f, body, k, idx, cols, c);
      assert Dot(f, inv[r], Image(f, Rows(f, idx, k), x), k) == x[r];
    }
  }

  /** The chosen shards are shards of the body, each at the point after its index. */
  ghost predicate Codeword(f: Field, idx: seq<nat>, cols: seq<Row>, body: Row, k: nat)
    requires k > 0 && |idx| == |cols|
  {
    forall j :: 0 <= j < |idx| ==> IsShard(f, body, k, idx[j], cols[j])
  }

  lemma {:induction false} CodewordIs(f: Field, idx: seq<nat>, cols: seq<Row>, body: Row, k: nat)
    requires f.Laws() && k > 0 && |idx| == |cols| && forall j :: 0 <= j < |idx| ==> idx[j] < 255
    ensures Codeword(f, idx, cols, body, k) <==> forall j :: 0 <= j < |idx| ==> cols[j] == Shard(f, body, k, idx[j])
  {
    forall j | 0 <= j < |idx|
      ensures IsShard(f, body, k, idx[j], cols[j]) <==> cols[j] == Shard(f, body, k, idx[j])
    {
      ShardIs(f, body, k, idx[j], cols[j]);
    }
  }

  /** rows are the data rows of every body the chosen shards could come from. */
  ghost predicate Recovered(f: Field, idx: seq<nat>, cols: seq<Row>, k: nat, rows: seq<Row>)
    requires k > 0 && |idx| == |cols|
  {
    forall body: Row {:trigger Codeword(f, idx, cols, body, k)} ::
      Codeword(f, idx, cols, body, k) ==> rows == DataRows(body, k)
  }

  lemma {:induction false} RecoveredBy(
    f: Field, k: nat, idx: seq<nat>, cols: seq<Row>, inv: seq<Row>, rows: seq<Row>)
    requires k > 0 && |idx| == |cols| == |rows| == k
    requires Shape(Rows(f, idx, k), k, k) && LeftInverse(f, inv, Rows(f, idx, k), k)
    requires f.Laws() && Ascending(idx)
    requires forall r :: 0 <= r < k ==> rows[r] == Combine(f, inv[r], cols, |cols[0]|)
    ensures Recovered(f, idx, cols, k, rows)
  {
    forall body: Row | Codeword(f, idx, cols, body, k) ensures rows == DataRows(body, k) {
      CodewordIs(f, idx, cols, body, k);
      assert |cols[0]| == |Shard(f, body, k, idx[0])| == RowLen(body, k);
      forall r | 0 <= r < k ensures rows[r] == DataRows(body, k)[r] { RecoverRow(f, body, k, idx, cols, inv, r); }
    }
  }

  /** The inverse of the chosen rows: elimination never finds them singular. */
  method Inverse(f: Field, idx: seq<nat>, k: nat) returns (inv: seq<Row>)
    requires f.Laws() && |idx| == k && Ascending(idx)
    ensures Shape(Rows(f, idx, k), k, k) && LeftInverse(f, inv, Rows(f, idx, k), k)
  {
    var r := MatInv(f, Rows(f, idx, k), k);
    if r.None? {
      ghost var x: Row :| |x| == k && Nonzero(x) && Kills(f, Rows(f, idx, k), x, k);
      Nonsingular(f, idx, k, x);
      assert false;
    } else {
      inv := r.value;
    }
  }

  /** Some chosen shard has the wrong length. */
  ghost predicate Ragged(cols: seq<Row>)
    requires cols != []
  {
    exists j :: 0 <= j < |cols| && !Fits(cols[j], |cols[0]|)
  }

  /** The decoding rows: the last of them meets every shard, so a wrong length never goes unnoticed. */
  method Decode(f: Field, idx: seq<nat>, cols: seq<Row>, k: nat) returns (rows: Option<seq<Row>>)
    requires f.Laws() && |idx| == |cols| == k > 0 && Ascending(idx)
    ensures rows.None? <==> Ragged(cols)
    ensures rows.Some? ==> Recovered(f, idx, cols, k, rows.value)
  {
    var inv := Inverse(f, idx, k);
    var out: seq<Row> := [];
    for i := 0 to k
      invariant |out| == i && forall j :: 0 <= j < i ==> out[j] == Combine(f, inv[j], cols, |cols[0]|)
      invariant forall j :: 0 <= j < i ==> !Misfit(inv[j], cols, |cols[0]|, k)
    {
      var row := GfCombine(f, inv[i], cols);
      if row.None? { return None; }
      out := out + [row.value];
    }
    forall j | 0 <= j < k ensures Fits(cols[j], |cols[0]|) {
      InverseUsesAll(f, idx, k, inv, j);
      assert !Misfit(inv[k - 1], cols, |cols[0]|, k);
    }
    RecoveredBy(f, k, idx, cols, inv, out);
    return Some(out);
  }

  function ColumnsOf(shards: map<nat, Row>, idx: seq<nat>): (cols: seq<Row>)
    requires forall j :: 0 <= j < |idx| ==> idx[j] in shards
    ensures |cols| == |idx| && forall j :: 0 <= j < |idx| ==> cols[j] == shards[idx[j]]
  {
    seq(|idx|, j requires 0 <= j < |idx| && idx[j] in shards => shards[idx[j]])
  }

  /** The k smallest indices are rows of the matrix, and their shards are equally long. */
  ghost predicate Usable(shards: map<nat, Row>, k: nat)
    requires 0 < k <= |shards.Keys|
  {
    var idx := Chosen(shards.Keys, k);
    idx[k - 1] < 255 && !Ragged(ColumnsOf(shards, idx))
  }

  /**
   * reconstruct: fails exactly when fewer than k shards are given or the chosen
   * ones are unusable, and otherwise returns the body, whatever else is offered.
   */
  method Reconstruct(f: Field, shards: map<nat, Row>, k: nat, origLen: nat) returns (r: Result)
    requires f.Laws()
    ensures r.Err? <==> k == 0 || |shards.Keys| < k || !Usable(shards, k)
    ensures r.Ok? ==> forall body: Row ::
      |body| == origLen && Codeword(f, Chosen(shards.Keys, k), ColumnsOf(shards, Chosen(shards.Keys, k)), body, k)
      ==> r.body == body
  {
    if |shards.Keys| < k { return Err("too few shards"); }
    if k == 0 { return Err("no shard"); }
    var idx := Chosen(shards.Keys, k);
    if idx[k - 1] >= 255 { return Err("no such row"); }
    var cols := ColumnsOf(shards, idx);
    var rows := Decode(f, idx, cols, k);
    if rows.None? { return Err("lengths differ"); }
    var all := Join(rows.value);
    forall body: Row | |body| == origLen && Codeword(f, idx, cols, body, k)
      ensures origLen <= |all| && all[..origLen] == body
    {
      JoinChunks(Padded(body, k), RowLen(body, k), k);
    }
    r := Ok(if origLen <= |all| then all[..origLen] else all);
  }

  /** Shards of one body are usable. */
  lemma {:induction false} ShardsUsable(f: Field, body: Row, k: nat, n: nat, kept: map<nat, Row>)
    requires f.Laws() && 0 < k <= |kept.Keys| && n <= 255
    requires forall i :: i in kept ==> i < n && kept[i] == Shard(f, body, k, i)
    ensures Usable(kept, k)
    ensures Codeword(f, Chosen(kept.Keys, k), ColumnsOf(kept, Chosen(kept.Keys, k)), body, k)
  {
    CodewordIs(f, Chosen(kept.Keys, k), ColumnsOf(kept, Chosen(kept.Keys, k)), body, k);
  }

  /** Any k of the n shards, in any choice, for every body: encode then reconstruct is the identity. */
  method RoundTrip(body: Row, k: nat, n: nat, keep: set<nat>) returns (r: Result)
    requires 0 < k <= n <= 255 && forall i :: i in keep ==> i < n
    ensures if |keep| >= k then r == Ok(body) else r.Err?
  {
    var f := GF();
    IsField();
    var shards := Encode(f, body, k, n);
    var kept := map i | i in keep :: shards[i];
    assert kept.Keys == keep;
    if |keep| >= k { ShardsUsable(f, body, k, n, kept); }
    r := Reconstruct(f, kept, k, |body|);
  }
}
