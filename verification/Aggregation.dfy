/**
 * The per-page weight transition of a block: the dense reference form of
 * rig/chain.py and the sparse form the incremental engine of
 * node/core/src/blocktree.rs computes.
 */
module Aggregation {
  import opened Int64
  import opened TM = TrimmedMean

  type Sparse = map<nat, int64>

  /** A delta body, carried dense or as its nonzero coordinates (a sorted, duplicate-free list, so a map). */
  datatype Body = Dense(values: seq<int64>) | Coords(n: nat, nonzero: Sparse) {

    function Len(): nat {
      match this case Dense(v) => |v| case Coords(n, _) => n
    }

    function At(i: nat): int64 {
      match this
      case Dense(v) => if i < |v| then v[i] else 0
      case Coords(_, c) => if i in c then c[i] else 0
    }

    /** body_coords: the coordinates the engine iterates over. */
    function Entries(): (c: Sparse)
      ensures forall i: nat :: At(i) == if i in c then c[i] else 0
    {
      match this
      case Dense(v) => map i: nat | i < |v| && v[i] != 0 :: v[i]
      case Coords(_, c) => c
    }

    /** The dense image. */
    function Values(): (v: seq<int64>)
      ensures |v| == Len() && forall i :: 0 <= i < |v| ==> v[i] == At(i)
    {
      seq(Len(), i requires 0 <= i < Len() => At(i))
    }
  }

  datatype Tx = Tx(id: nat, pages: seq<nat>, body: Body)

  /** The half-open coordinate range [start, end) of a page. */
  datatype Span = Span(start: nat, end: nat) {
    predicate Has(i: nat) { start <= i < end }
  }

  /** Spans lie inside a vector of length dim and do not overlap. */
  ghost predicate Fits(spans: seq<Span>, dim: nat) {
    && (forall p :: 0 <= p < |spans| ==> spans[p].start <= spans[p].end <= dim)
    && (forall p, q :: 0 <= p < q < |spans| ==>
          spans[p].end <= spans[q].start || spans[q].end <= spans[p].start)
  }

  /** The first page holding coordinate i, or |spans| when there is none. */
  function PageOf(spans: seq<Span>, i: nat): (p: nat)
    ensures p <= |spans| && (p < |spans| ==> spans[p].Has(i))
  {
    PageFrom(spans, i, 0)
  }

  function PageFrom(spans: seq<Span>, i: nat, from: nat): (p: nat)
    requires from <= |spans|
    ensures from <= p <= |spans| && (p < |spans| ==> spans[p].Has(i))
    decreases |spans| - from
  {
    if from == |spans| || spans[from].Has(i) then from else PageFrom(spans, i, from + 1)
  }

  lemma {:induction false} PageFromFirst(spans: seq<Span>, i: nat, from: nat, q: nat)
    requires from <= q < |spans| && spans[q].Has(i)
    ensures PageFrom(spans, i, from) <= q
    decreases |spans| - from
  {
    if from < q && !spans[from].Has(i) { PageFromFirst(spans, i, from + 1, q); }
  }

  lemma {:induction false} PageOfUnique(spans: seq<Span>, dim: nat, p: nat, i: nat)
    requires Fits(spans, dim) && p < |spans|
    ensures spans[p].Has(i) <==> PageOf(spans, i) == p
  {
    if spans[p].Has(i) { PageFromFirst(spans, i, 0, p); }
  }

  /** The transactions that claim page p, in block order. */
  function Claimants(txs: seq<Tx>, p: nat): seq<Tx> {
    if txs == [] then []
    else (if p in txs[0].pages then [txs[0]] else []) + Claimants(txs[1..], p)
  }

  lemma {:induction false} ClaimantsFrom(txs: seq<Tx>, p: nat)
    ensures forall j :: 0 <= j < |Claimants(txs, p)| ==> Claimants(txs, p)[j] in txs
  {
    if txs != [] {
      ClaimantsFrom(txs[1..], p);
      assert forall t :: t in txs[1..] ==> t in txs;
    }
  }

  function Column(txs: seq<Tx>, p: nat, i: nat): seq<int64> {
    var c := Claimants(txs, p);
    seq(|c|, j requires 0 <= j < |c| => c[j].body.At(i))
  }

  /** What a block adds to coordinate i: the trimmed mean over the claimants of its page. */
  function Delta(txs: seq<Tx>, spans: seq<Span>, i: nat): int64 {
    var p := PageOf(spans, i);
    if p < |spans| && Column(txs, p, i) != [] then TM.TrimmedMean(Column(txs, p, i)) else 0
  }

  /** The dense per-page transition, stated coordinate by coordinate. */
  function Transition(parent: seq<int64>, txs: seq<Tx>, spans: seq<Span>): (w: seq<int64>)
    ensures |w| == |parent|
  {
    seq(|parent|, i requires 0 <= i < |parent| => Add(parent[i], Delta(txs, spans, i)))
  }

  /** The sparse aggregate: exactly the coordinates a block moves. */
  function Aggregate(txs: seq<Tx>, spans: seq<Span>, dim: nat): Sparse {
    map i: nat | i < dim && Delta(txs, spans, i) != 0 :: Delta(txs, spans, i)
  }

  /** Adding a sparse record in place. */
  function Apply(w: seq<int64>, d: Sparse): (r: seq<int64>)
    ensures |r| == |w| && forall i :: 0 <= i < |w| ==> r[i] == Moved(w, d, i)
  {
    seq(|w|, i requires 0 <= i < |w| => Moved(w, d, i))
  }

  function Moved(w: seq<int64>, d: Sparse, i: nat): int64
    requires i < |w|
  {
    if i in d then Add(w[i], d[i]) else w[i]
  }

  lemma {:induction false} SparseEqualsDense(parent: seq<int64>, txs: seq<Tx>, spans: seq<Span>)
    ensures Apply(parent, Aggregate(txs, spans, |parent|)) == Transition(parent, txs, spans)
  {
    var agg := Aggregate(txs, spans, |parent|);
    forall i: nat | i < |parent| ensures Apply(parent, agg)[i] == Transition(parent, txs, spans)[i] {
      assert i !in agg ==> Delta(txs, spans, i) == 0;
    }
  }

  // ---- rig/chain.py paged_transition: page by page over dense bodies ----

  function Slices(claimants: seq<Tx>, s: Span, dim: nat): (rows: seq<seq<int64>>)
    requires s.start <= s.end <= dim
    requires forall j :: 0 <= j < |claimants| ==> claimants[j].body.Len() == dim
    ensures |rows| == |claimants| && forall j :: 0 <= j < |rows| ==> |rows[j]| == s.end - s.start
  {
    seq(|claimants|, j requires 0 <= j < |claimants| => claimants[j].body.Values()[s.start..s.end])
  }

  function PageMean(claimants: seq<Tx>, s: Span, dim: nat): (m: seq<int64>)
    requires s.start <= s.end <= dim && claimants != []
    requires forall j :: 0 <= j < |claimants| ==> claimants[j].body.Len() == dim
    ensures |m| == s.end - s.start
  {
    TrimmedMeanRows(Slices(claimants, s, dim), s.end - s.start)
  }

  lemma {:induction false} SlicesColumn(claimants: seq<Tx>, txs: seq<Tx>, p: nat, s: Span, dim: nat, i: nat)
    requires s.start <= s.end <= dim && s.Has(i) && claimants == Claimants(txs, p)
    requires forall j :: 0 <= j < |claimants| ==> claimants[j].body.Len() == dim
    ensures ColumnAt(Slices(claimants, s, dim), i - s.start) == Column(txs, p, i)
  {
    forall j | 0 <= j < |claimants|
      ensures ColumnAt(Slices(claimants, s, dim), i - s.start)[j] == Column(txs, p, i)[j]
    {
      assert claimants[j].body.Values()[s.start..s.end][i - s.start] == claimants[j].body.Values()[i];
    }
  }

  lemma {:induction false} PageMeanAt(txs: seq<Tx>, p: nat, s: Span, dim: nat, i: nat)
    requires s.start <= s.end <= dim && s.Has(i) && Claimants(txs, p) != []
    requires forall j :: 0 <= j < |Claimants(txs, p)| ==> Claimants(txs, p)[j].body.Len() == dim
    ensures |Column(txs, p, i)| == |Claimants(txs, p)|
    ensures PageMean(Claimants(txs, p), s, dim)[i - s.start] == TM.TrimmedMean(Column(txs, p, i))
  {
    SlicesColumn(Claimants(txs, p), txs, p, s, dim, i);
  }

  lemma {:induction false} UnclaimedDelta(txs: seq<Tx>, spans: seq<Span>, dim: nat, p: nat, i: nat)
    requires Fits(spans, dim) && p < |spans| && spans[p].Has(i) && Claimants(txs, p) == []
    ensures Delta(txs, spans, i) == 0
  {
    PageOfUnique(spans, dim, p, i);
  }

  /** What page p alone adds to coordinate i. */
  function Share(txs: seq<Tx>, spans: seq<Span>, p: nat, i: nat): int64
    requires p < |spans|
  {
    if spans[p].Has(i) && Column(txs, p, i) != [] then TM.TrimmedMean(Column(txs, p, i)) else 0
  }

  lemma {:induction false} ColumnIsShare(txs: seq<Tx>, spans: seq<Span>, p: nat, i: nat, m: int64)
    requires p < |spans| && spans[p].Has(i) && Column(txs, p, i) != [] && m == TM.TrimmedMean(Column(txs, p, i))
    ensures m == Share(txs, spans, p, i)
  {
  }

  lemma {:induction false} MeanIsShare(
      txs: seq<Tx>, spans: seq<Span>, p: nat, i: nat, s: Span, mean: seq<int64>, dim: nat)
    requires p < |spans| && spans[p].Has(i) && s.start <= s.end <= dim && s.Has(i) && Claimants(txs, p) != []
    requires forall j :: 0 <= j < |Claimants(txs, p)| ==> Claimants(txs, p)[j].body.Len() == dim
    requires mean == PageMean(Claimants(txs, p), s, dim)
    ensures mean[i - s.start] == Share(txs, spans, p, i)
  {
    PageMeanAt(txs, p, s, dim, i);
    ColumnIsShare(txs, spans, p, i, mean[i - s.start]);
  }

  /** What the pages add to coordinate i, page by page. */
  function Shares(txs: seq<Tx>, spans: seq<Span>, i: nat): (s: seq<int64>)
    ensures |s| == |spans| && forall p :: 0 <= p < |s| ==> s[p] == Share(txs, spans, p, i)
  {
    seq(|spans|, p requires 0 <= p < |spans| => Share(txs, spans, p, i))
  }

  /** The part of a span that a vector of length n has; numpy slices clip. */
  function Clip(s: Span, n: nat): (r: Span)
    ensures r.start <= r.end <= n && forall i: nat :: i < n ==> (r.Has(i) <==> s.Has(i))
  {
    if s.start >= n || s.end <= s.start then Span(n, n) else if s.end <= n then s else Span(s.start, n)
  }

  function AddOnSpan(w: seq<int64>, s: Span, tm: seq<int64>): (r: seq<int64>)
    requires s.start <= s.end <= |w| && |tm| == s.end - s.start
    ensures |r| == |w|
    ensures forall i :: 0 <= i < |w| ==> r[i] == if s.Has(i) then Add(w[i], tm[i - s.start]) else w[i]
  {
    seq(|w|, i requires 0 <= i < |w| => if s.Has(i) then Add(w[i], tm[i - s.start]) else w[i])
  }

  method TransitionPage(w0: seq<int64>, txs: seq<Tx>, spans: seq<Span>, p: nat) returns (w: seq<int64>)
    requires p < |spans| && forall t :: t in txs ==> t.body.Len() == |w0|
    ensures |w| == |w0| && forall i :: 0 <= i < |w| ==> w[i] == Add(w0[i], Share(txs, spans, p, i))
  {
    var s, claimants := Clip(spans[p], |w0|), Claimants(txs, p);
    ClaimantsFrom(txs, p);
    if claimants == [] { return w0; }
    var mean := PageMean(claimants, s, |w0|);
    w := AddOnSpan(w0, s, mean);
    forall i | 0 <= i < |w| ensures w[i] == Add(w0[i], Share(txs, spans, p, i)) {
      if s.Has(i) { MeanIsShare(txs, spans, p, i, s, mean, |w0|); }
    }
  }

  /** What the dense loop leaves at a coordinate: the pages' shares added one after the other. */
  function Accrued(x: int64, shares: seq<int64>): int64 { WrapSum([x] + shares) }

  lemma {:induction false} AccruedNone(x: int64, shares: seq<int64>)
    requires shares == []
    ensures Accrued(x, shares) == x
  {
    AccruedIsSum(x, shares);
    AddZero(x);
  }

  lemma {:induction false} AccruedNext(x: int64, shares: seq<int64>, p: nat)
    requires p < |shares|
    ensures Accrued(x, shares[..p + 1]) == Add(Accrued(x, shares[..p]), shares[p])
  {
    var all := [x] + shares[..p + 1];
    assert all[..|all| - 1] == [x] + shares[..p];
  }

  /** Every coordinate has taken the shares of the pages below p. */
  ghost predicate AccruedUpTo(w: seq<int64>, parent: seq<int64>, txs: seq<Tx>, spans: seq<Span>, p: nat)
    requires p <= |spans|
  {
    |w| == |parent| && forall i :: 0 <= i < |w| ==> w[i] == Accrued(parent[i], Shares(txs, spans, i)[..p])
  }

  lemma {:induction false} AccruedStep(
    w: seq<int64>, v: seq<int64>, parent: seq<int64>, txs: seq<Tx>, spans: seq<Span>, p: nat)
    requires p < |spans| && AccruedUpTo(w, parent, txs, spans, p)
    requires |v| == |w| && forall i :: 0 <= i < |v| ==> v[i] == Add(w[i], Share(txs, spans, p, i))
    ensures AccruedUpTo(v, parent, txs, spans, p + 1)
  {
    forall i | 0 <= i < |v| ensures v[i] == Accrued(parent[i], Shares(txs, spans, i)[..p + 1]) {
      AccruedNext(parent[i], Shares(txs, spans, i), p);
    }
  }

  lemma {:induction false} AccruedStart(parent: seq<int64>, txs: seq<Tx>, spans: seq<Span>)
    ensures AccruedUpTo(parent, parent, txs, spans, 0)
  {
    forall i | 0 <= i < |parent| ensures parent[i] == Accrued(parent[i], Shares(txs, spans, i)[..0]) {
      AccruedNone(parent[i], Shares(txs, spans, i)[..0]);
    }
  }

  lemma {:induction false} AccruedAll(w: seq<int64>, parent: seq<int64>, txs: seq<Tx>, spans: seq<Span>)
    requires AccruedUpTo(w, parent, txs, spans, |spans|)
    ensures forall i :: 0 <= i < |w| ==> w[i] == Accrued(parent[i], Shares(txs, spans, i))
    ensures Fits(spans, |parent|) ==> w == Transition(parent, txs, spans)
  {
    forall i | 0 <= i < |w|
      ensures w[i] == Accrued(parent[i], Shares(txs, spans, i))
      ensures Fits(spans, |parent|) ==> w[i] == Transition(parent, txs, spans)[i]
    {
      var shares := Shares(txs, spans, i);
      assert shares[..|spans|] == shares;
      if Fits(spans, |parent|) { FitsMoves(parent[i], txs, spans, |parent|, i); }
    }
  }

  /** paged_transition on any layout: a coordinate gets the share of every page that holds it. */
  method PagedTransition(parent: seq<int64>, txs: seq<Tx>, spans: seq<Span>) returns (w: seq<int64>)
    requires forall t :: t in txs ==> t.body.Len() == |parent|
    ensures |w| == |parent|
    ensures forall i :: 0 <= i < |w| ==> w[i] == Accrued(parent[i], Shares(txs, spans, i))
    ensures Fits(spans, |parent|) ==> w == Transition(parent, txs, spans)
  {
    w := parent;
    AccruedStart(parent, txs, spans);
    for p := 0 to |spans|
      invariant AccruedUpTo(w, parent, txs, spans, p)
    {
      var v := TransitionPage(w, txs, spans, p);
      AccruedStep(w, v, parent, txs, spans, p);
      w := v;
    }
    AccruedAll(w, parent, txs, spans);
  }

  lemma {:induction false} ShareIsDelta(txs: seq<Tx>, spans: seq<Span>, dim: nat, p: nat, i: nat)
    requires Fits(spans, dim) && p < |spans|
    ensures Share(txs, spans, p, i) == if p == PageOf(spans, i) then Delta(txs, spans, i) else 0
  {
    PageOfUnique(spans, dim, p, i);
  }

  /** Adding to x is adding the shares' own wrapped sum. */
  lemma {:induction false} AccruedIsSum(x: int64, shares: seq<int64>)
    ensures Accrued(x, shares) == Add(x, WrapSum(shares))
  {
    WrapSumIsWrappedSum([x] + shares);
    WrapSumIsWrappedSum(shares);
    assert ([x] + shares)[1..] == shares;
    WrapAbsorbs(Sum(shares), x);
  }

  /** Only page k contributes. */
  ghost predicate Single(shares: seq<int64>, k: nat, d: int64) {
    forall p :: 0 <= p < |shares| ==> shares[p] == if p == k then d else 0
  }

  lemma {:induction false} SingleSums(shares: seq<int64>, k: nat, d: int64)
    requires Single(shares, k, d)
    ensures WrapSum(shares) == Latest(shares) == if k < |shares| then d else 0
  {
    if shares != [] {
      SingleSums(shares[..|shares| - 1], k, d);
      AddZero(WrapSum(shares[..|shares| - 1]));
    }
  }

  /** Without overlap one page contributes: the block's delta. */
  lemma {:induction false} FitsMoves(x: int64, txs: seq<Tx>, spans: seq<Span>, dim: nat, i: nat)
    requires Fits(spans, dim)
    ensures Accrued(x, Shares(txs, spans, i)) == Add(x, Delta(txs, spans, i))
    ensures WrapSum(Shares(txs, spans, i)) == Latest(Shares(txs, spans, i)) == Delta(txs, spans, i)
  {
    var shares := Shares(txs, spans, i);
    forall p | 0 <= p < |shares| ensures shares[p] == if p == PageOf(spans, i) then Delta(txs, spans, i) else 0 {
      ShareIsDelta(txs, spans, dim, p, i);
    }
    SingleSums(shares, PageOf(spans, i), Delta(txs, spans, i));
    AccruedIsSum(x, shares);
  }

  // ---- node/core/src/blocktree.rs page_aggregate: per page, only the touched coordinates ----

  ghost predicate TouchedUpTo(touched: map<nat, seq<int64>>, claimants: seq<Tx>, s: Span, slot: nat)
    requires slot <= |claimants|
  {
    && (forall i :: i in touched ==> s.Has(i) && |touched[i]| == |claimants|)
    && (forall i, j :: i in touched && 0 <= j < |claimants| ==>
          touched[i][j] == if j < slot then claimants[j].body.At(i) else 0)
  }

  ghost predicate Covers(touched: map<nat, seq<int64>>, claimants: seq<Tx>, s: Span, slot: nat)
    requires slot <= |claimants|
  {
    forall i: nat, j :: 0 <= j < slot && s.Has(i) && claimants[j].body.At(i) != 0 ==> i in touched
  }

  ghost predicate OtherSlots(column: seq<int64>, claimants: seq<Tx>, i: nat, slot: nat) {
    && |column| == |claimants|
    && forall j :: 0 <= j < |claimants| && j != slot ==>
         column[j] == if j < slot then claimants[j].body.At(i) else 0
  }

  /** touched.entry(i).or_insert(zeros)[slot] = v */
  function SetSlot(touched: map<nat, seq<int64>>, i: nat, slot: nat, v: int64, n: nat): (r: map<nat, seq<int64>>)
    requires slot < n && forall k :: k in touched ==> |touched[k]| == n
    ensures r.Keys == touched.Keys + {i} && |r[i]| == n && r[i][slot] == v
    ensures forall k :: k in touched && k != i ==> r[k] == touched[k]
    ensures forall j :: 0 <= j < n && j != slot ==> r[i][j] == if i in touched then touched[i][j] else 0
  {
    var column: seq<int64> := if i in touched then touched[i] else seq(n, _ => 0);
    touched[i := column[slot := v]]
  }

  /** Enter one claimant's nonzero coordinates of the span into the touched columns. */
  method TouchSlot(touched0: map<nat, seq<int64>>, claimants: seq<Tx>, s: Span, slot: nat)
    returns (touched: map<nat, seq<int64>>)
    requires slot < |claimants|
    requires TouchedUpTo(touched0, claimants, s, slot) && Covers(touched0, claimants, s, slot)
    ensures TouchedUpTo(touched, claimants, s, slot + 1) && Covers(touched, claimants, s, slot + 1)
  {
    touched := touched0;
    var coords := claimants[slot].body.Entries();
    var todo := coords.Keys;
    while todo != {}
      invariant todo <= coords.Keys && touched0.Keys <= touched.Keys
      invariant forall i :: i in touched ==> s.Has(i) && OtherSlots(touched[i], claimants, i, slot)
      invariant forall i :: i in touched ==>
        touched[i][slot] == if i in coords && i !in todo then coords[i] else 0
      invariant forall i :: i in coords && i !in todo && s.Has(i) && coords[i] != 0 ==> i in touched
      decreases todo
    {
      var i :| i in todo;
      todo := todo - {i};
      if s.Has(i) && coords[i] != 0 {
        if i !in touched {
          forall j | 0 <= j < slot ensures claimants[j].body.At(i) == 0 { assert i !in touched0; }
        }
        touched := SetSlot(touched, i, slot, coords[i], |claimants|);
        assert OtherSlots(touched[i], claimants, i, slot);
      }
    }
  }

  /** Average one page's touched columns into the aggregate; a zero result inserts nothing. */
  method MergeColumns(agg0: Sparse, touched: map<nat, seq<int64>>) returns (agg: Sparse)
    requires forall i :: i in touched ==> touched[i] != []
    ensures forall i ::
      MoveAt(agg, i) == Overwrite(MoveAt(agg0, i), if i in touched then TM.TrimmedMean(touched[i]) else 0)
    ensures NonZero(agg0) ==> NonZero(agg)
  {
    agg := agg0;
    var todo := touched.Keys;
    while todo != {}
      invariant todo <= touched.Keys && (NonZero(agg0) ==> NonZero(agg))
      invariant forall i ::
        var m: int64 := if i in touched && i !in todo then TM.TrimmedMean(touched[i]) else 0;
        MoveAt(agg, i) == Overwrite(MoveAt(agg0, i), m)
      decreases todo
    {
      var i :| i in todo;
      todo := todo - {i};
      var m := TM.TrimmedMean(touched[i]);
      if m != 0 { agg := agg[i := m]; }
    }
  }

  function MoveAt(d: Sparse, i: nat): int64 { if i in d then d[i] else 0 }

  ghost predicate NonZero(d: Sparse) { forall i :: i in d ==> d[i] != 0 }

  function Overwrite(x: int64, m: int64): int64 { if m != 0 then m else x }

  /** The last nonzero share, or 0. */
  function Latest(shares: seq<int64>): int64 {
    if shares == [] then 0 else Overwrite(Latest(shares[..|shares| - 1]), shares[|shares| - 1])
  }

  /** One finished page: untouched coordinates of the span have an all-zero column. */
  lemma {:induction false} TouchedIsShare(txs: seq<Tx>, spans: seq<Span>, p: nat, touched: map<nat, seq<int64>>, i: nat)
    requires p < |spans| && Claimants(txs, p) != []
    requires TouchedUpTo(touched, Claimants(txs, p), spans[p], |Claimants(txs, p)|)
    requires Covers(touched, Claimants(txs, p), spans[p], |Claimants(txs, p)|)
    ensures Share(txs, spans, p, i) == if i in touched then TM.TrimmedMean(touched[i]) else 0
  {
    if i in touched {
      assert touched[i] == Column(txs, p, i);
    } else if spans[p].Has(i) {
      ZeroColumn(Column(txs, p, i));
    }
  }

  method AggregatePage(agg0: Sparse, txs: seq<Tx>, spans: seq<Span>, p: nat) returns (agg: Sparse)
    requires p < |spans| && NonZero(agg0)
    ensures NonZero(agg) && forall i: nat :: MoveAt(agg, i) == Overwrite(MoveAt(agg0, i), Share(txs, spans, p, i))
  {
    var s, claimants := spans[p], Claimants(txs, p);
    if claimants == [] {
      assert forall i: nat :: Column(txs, p, i) == [];
      return agg0;
    }
    var touched: map<nat, seq<int64>> := map[];
    for slot := 0 to |claimants|
      invariant TouchedUpTo(touched, claimants, s, slot) && Covers(touched, claimants, s, slot)
    {
      touched := TouchSlot(touched, claimants, s, slot);
    }
    agg := MergeColumns(agg0, touched);
    forall i: nat ensures MoveAt(agg, i) == Overwrite(MoveAt(agg0, i), Share(txs, spans, p, i)) {
      TouchedIsShare(txs, spans, p, touched, i);
    }
  }

  /** page_aggregate on any layout: a coordinate keeps the nonzero share of the last page that holds it. */
  method PageAggregate(txs: seq<Tx>, spans: seq<Span>) returns (agg: Sparse)
    ensures NonZero(agg) && forall i: nat :: MoveAt(agg, i) == Latest(Shares(txs, spans, i))
    ensures forall dim: nat :: Fits(spans, dim) ==> agg == Aggregate(txs, spans, dim)
  {
    agg := map[];
    for p := 0 to |spans|
      invariant NonZero(agg) && forall i: nat :: MoveAt(agg, i) == Latest(Shares(txs, spans, i)[..p])
    {
      forall i: nat
        ensures Latest(Shares(txs, spans, i)[..p + 1]) == Overwrite(MoveAt(agg, i), Share(txs, spans, p, i))
      {
        var shares := Shares(txs, spans, i);
        assert shares[..p + 1][..p] == shares[..p];
      }
      agg := AggregatePage(agg, txs, spans, p);
    }
    forall i: nat ensures MoveAt(agg, i) == Latest(Shares(txs, spans, i)) {
      var shares := Shares(txs, spans, i);
      assert shares[..|spans|] == shares;
    }
    forall dim: nat | Fits(spans, dim) ensures agg == Aggregate(txs, spans, dim) {
      LatestIsAggregate(agg, txs, spans, dim);
    }
  }

  lemma {:induction false} SparseEqual(a: Sparse, b: Sparse)
    requires NonZero(a) && NonZero(b) && forall i: nat :: MoveAt(a, i) == MoveAt(b, i)
    ensures a == b
  {
    assert forall i: nat :: i in a <==> MoveAt(a, i) != 0;
    assert forall i: nat :: i in b <==> MoveAt(b, i) != 0;
  }

  lemma {:induction false} LatestIsAggregate(agg: Sparse, txs: seq<Tx>, spans: seq<Span>, dim: nat)
    requires NonZero(agg) && forall i: nat :: MoveAt(agg, i) == Latest(Shares(txs, spans, i))
    requires Fits(spans, dim)
    ensures agg == Aggregate(txs, spans, dim)
  {
    var sparse := Aggregate(txs, spans, dim);
    forall i: nat ensures MoveAt(agg, i) == MoveAt(sparse, i) {
      FitsMoves(0, txs, spans, dim, i);
      assert i >= dim ==> PageOf(spans, i) == |spans|;
    }
    SparseEqual(agg, sparse);
  }

  // ---- when the two loops agree ----

  /** The shares of the pages that hold i sum, modulo 2^64, to the last nonzero one. */
  predicate OneMoves(txs: seq<Tx>, spans: seq<Span>, i: nat) {
    WrapSum(Shares(txs, spans, i)) == Latest(Shares(txs, spans, i))
  }

  lemma {:induction false} AgreeAt(x: int64, txs: seq<Tx>, spans: seq<Span>, i: nat)
    ensures Accrued(x, Shares(txs, spans, i)) == Add(x, Latest(Shares(txs, spans, i))) <==> OneMoves(txs, spans, i)
  {
    var shares := Shares(txs, spans, i);
    AccruedIsSum(x, shares);
    AddCancels(x, WrapSum(shares), Latest(shares));
  }

  /** On any layout, the sparse and the dense loop give one state exactly when every coordinate moves once. */
  lemma {:induction false} LoopsAgree(parent: seq<int64>, txs: seq<Tx>, spans: seq<Span>, w: seq<int64>, agg: Sparse)
    requires |w| == |parent| && forall i :: 0 <= i < |w| ==> w[i] == Accrued(parent[i], Shares(txs, spans, i))
    requires NonZero(agg) && forall i: nat :: MoveAt(agg, i) == Latest(Shares(txs, spans, i))
    ensures Apply(parent, agg) == w <==> forall i :: 0 <= i < |w| ==> OneMoves(txs, spans, i)
    ensures Fits(spans, |parent|) ==> Apply(parent, agg) == w
  {
    var r := Apply(parent, agg);
    forall i | 0 <= i < |w|
      ensures r[i] == w[i] <==> OneMoves(txs, spans, i)
      ensures Fits(spans, |parent|) ==> OneMoves(txs, spans, i)
    {
      AgreeAt(parent[i], txs, spans, i);
      assert r[i] == Add(parent[i], MoveAt(agg, i)) by { AddZero(parent[i]); }
      if Fits(spans, |parent|) { FitsMoves(0, txs, spans, |parent|, i); }
    }
  }

  /** Two pages over one coordinate, both claimed by a delta of 1: the dense loop adds 2, the sparse one 1. */
  lemma {:induction false} OverlapDiffers(id: nat, pages: seq<nat>)
    requires 0 in pages && 1 in pages
    ensures var txs, spans := [Tx(id, pages, Dense([1]))], [Span(0, 1), Span(0, 1)];
      WrapSum(Shares(txs, spans, 0)) == 2 && Latest(Shares(txs, spans, 0)) == 1
  {
    var tx := Tx(id, pages, Dense([1]));
    var txs, spans := [tx], [Span(0, 1), Span(0, 1)];
    assert txs[1..] == [];
    assert Claimants(txs, 0) == [tx] && Claimants(txs, 1) == [tx];
    assert Column(txs, 0, 0) == [1] && Column(txs, 1, 0) == [1];
    MeanOfOne(1);
    assert Shares(txs, spans, 0) == [1, 1];
    assert [1, 1][..1] == [1] && [1][..0] == [];
    assert WrapSum([1]) == 1 && Latest([1]) == 1;
  }

  // ---- tx order ----

  lemma {:induction false} ClaimantsConcat(a: seq<Tx>, b: seq<Tx>, p: nat)
    ensures Claimants(a + b, p) == Claimants(a, p) + Claimants(b, p)
  {
    if a == [] {
      assert a + b == b;
    } else {
      var head := if p in a[0].pages then [a[0]] else [];
      assert (a + b)[1..] == a[1..] + b && (a + b)[0] == a[0];
      assert Claimants(a + b, p) == head + Claimants(a[1..] + b, p);
      ClaimantsConcat(a[1..], b, p);
      assert head + (Claimants(a[1..], p) + Claimants(b, p)) == (head + Claimants(a[1..], p)) + Claimants(b, p);
    }
  }

  function Without(txs: seq<Tx>, k: nat): seq<Tx>
    requires k < |txs|
  {
    txs[..k] + txs[k + 1..]
  }

  lemma {:induction false} WithoutMultiset(txs: seq<Tx>, k: nat)
    requires k < |txs|
    ensures multiset(Without(txs, k)) == multiset(txs) - multiset{txs[k]}
  {
    assert txs == txs[..k] + [txs[k]] + txs[k + 1..];
  }

  lemma {:induction false} ColumnConcat(a: seq<Tx>, b: seq<Tx>, p: nat, i: nat)
    ensures Column(a + b, p, i) == Column(a, p, i) + Column(b, p, i)
  {
    ClaimantsConcat(a, b, p);
  }

  /** Taking one transaction out removes exactly its own contribution. */
  lemma {:induction false} ColumnWithout(txs: seq<Tx>, k: nat, p: nat, i: nat)
    requires k < |txs|
    ensures multiset(Column(txs, p, i)) ==
      multiset(Column([txs[k]], p, i)) + multiset(Column(Without(txs, k), p, i))
  {
    var pre, post := txs[..k], txs[k + 1..];
    assert txs == pre + ([txs[k]] + post);
    ColumnConcat(pre, [txs[k]] + post, p, i);
    ColumnConcat([txs[k]], post, p, i);
    ColumnConcat(pre, post, p, i);
  }

  lemma {:induction false} ColumnPermute(a: seq<Tx>, b: seq<Tx>, p: nat, i: nat)
    requires multiset(a) == multiset(b)
    ensures multiset(Column(a, p, i)) == multiset(Column(b, p, i))
  {
    if a == [] {
      assert |multiset(b)| == 0;
    } else {
      assert a[0] in multiset(b);
      var k :| 0 <= k < |b| && b[k] == a[0];
      WithoutMultiset(a, 0);
      WithoutMultiset(b, k);
      ColumnPermute(Without(a, 0), Without(b, k), p, i);
      ColumnWithout(a, 0, p, i);
      ColumnWithout(b, k, p, i);
    }
  }

  /** Neither form depends on the order in which a block lists its transactions. */
  lemma {:induction false} TxOrderIrrelevant(a: seq<Tx>, b: seq<Tx>, spans: seq<Span>, parent: seq<int64>)
    requires multiset(a) == multiset(b)
    ensures Transition(parent, a, spans) == Transition(parent, b, spans)
    ensures Aggregate(a, spans, |parent|) == Aggregate(b, spans, |parent|)
  {
    forall i: nat ensures Delta(a, spans, i) == Delta(b, spans, i) {
      var p := PageOf(spans, i);
      ColumnPermute(a, b, p, i);
      var ca, cb := Column(a, p, i), Column(b, p, i);
      SameSize(ca, cb);
      if ca != [] { OrderIrrelevant(ca, cb); }
    }
  }
}
