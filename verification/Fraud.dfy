/**
 * Page fraud proofs (rig/fraud.py). SHA-256 is injective: a committed hash is
 * represented by what it commits, so a header carries its parent header, its
 * page table and its multiset of transactions; page leaves are Merkle digests.
 */
module Fraud {
  import opened Wrappers
  import opened Int64
  import opened Aggregation
  import opened Merkle
  import opened Machine
  import TrimmedMean

  /** Everything a transaction id commits; pages are canonical, delta is the dense body the delta hash commits. */
  datatype Core = Core(
    miner: nat, baseHeight: nat, delta: seq<int64>, pointer: nat, bond: int, pages: seq<nat>, refs: seq<nat>)

  /** signed: the signature verifies. */
  datatype SignedTx = SignedTx(core: Core, signed: bool)

  datatype Head =
    | Origin
    | Head(prev: Head, height: nat, stateRoot: Digest, modelRoot: seq<Span>, txset: multiset<Core>, nTxs: nat)

  datatype SparseBody = SparseBody(n: int, idx: seq<int>, val: seq<int64>)

  datatype Evidence = Evidence(
    header: Head, parent: Head, model: seq<Span>, leaves: seq<Digest>, pageId: int, txids: seq<Core>,
    txs: seq<SignedTx>, bodies: map<Core, SparseBody>, parentPage: seq<int64>, path: seq<Merkle.Step>)

  /** Raised: the recomputation raises, as it can on a committed span outside the vector. */
  datatype Verdict = Fraudulent | Invalid(reason: string) | Raised

  // ---- _dense ----

  /** Coordinates are sorted, unique and in range. */
  ghost predicate GoodCoords(b: SparseBody, dim: nat) {
    && b.n == dim && |b.idx| == |b.val|
    && (forall k :: 0 <= k < |b.idx| ==> 0 <= b.idx[k] < dim)
    && (forall j, k :: 0 <= j < k < |b.idx| ==> b.idx[j] < b.idx[k])
  }

  /** d is the dense image of b. */
  ghost predicate IsDense(b: SparseBody, dim: nat, d: seq<int64>) {
    && GoodCoords(b, dim) && |d| == dim
    && (forall k :: 0 <= k < |b.idx| ==> d[b.idx[k]] == b.val[k])
    && (forall i :: 0 <= i < dim && i !in b.idx ==> d[i] == 0)
  }

  lemma {:induction false} DenseUnique(b: SparseBody, dim: nat, d: seq<int64>, e: seq<int64>)
    requires IsDense(b, dim, d) && IsDense(b, dim, e)
    ensures d == e
  {
    forall i | 0 <= i < dim ensures d[i] == e[i] {
      if i in b.idx {
        var k :| 0 <= k < |b.idx| && b.idx[k] == i;
        assert d[b.idx[k]] == b.val[k] == e[b.idx[k]];
      }
    }
  }

  method Densify(b: SparseBody, dim: nat) returns (d: Option<seq<int64>>)
    ensures d.Some? <==> GoodCoords(b, dim)
    ensures d.Some? ==> IsDense(b, dim, d.value)
  {
    if b.n != dim || |b.idx| != |b.val| { return None; }
    var out: seq<int64> := seq(dim, _ => 0);
    var last := -1;
    for k := 0 to |b.idx|
      invariant |out| == dim && last == if k == 0 then -1 else b.idx[k - 1]
      invariant forall j :: 0 <= j < k ==> 0 <= b.idx[j] <= last && b.idx[j] < dim
      invariant forall i, j :: 0 <= i < j < k ==> b.idx[i] < b.idx[j]
      invariant forall j :: 0 <= j < k ==> out[b.idx[j]] == b.val[j]
      invariant forall i :: 0 <= i < dim && i !in b.idx[..k] ==> out[i] == 0
    {
      if b.idx[k] < 0 || b.idx[k] >= dim || b.idx[k] <= last {
        assert !GoodCoords(b, dim) by {
          if k > 0 { assert b.idx[k - 1] == last; }
        }
        return None;
      }
      assert b.idx[..k + 1] == b.idx[..k] + [b.idx[k]];
      last := b.idx[k];
      out := out[last := b.val[k]];
    }
    assert b.idx[..|b.idx|] == b.idx;
    return Some(out);
  }

  /** The prover's encoding of a dense body: its nonzero coordinates. */
  method Sparsify(d: seq<int64>) returns (b: SparseBody)
    ensures IsDense(b, |d|, d)
  {
    var idx: seq<int>, val: seq<int64> := [], [];
    for i := 0 to |d|
      invariant |idx| == |val|
      invariant forall k :: 0 <= k < |idx| ==> 0 <= idx[k] < i && d[idx[k]] == val[k]
      invariant forall j, k :: 0 <= j < k < |idx| ==> idx[j] < idx[k]
      invariant forall j :: 0 <= j < i && d[j] != 0 ==> j in idx
    {
      if d[i] != 0 { idx, val := idx + [i], val + [d[i]]; }
    }
    b := SparseBody(|d|, idx, val);
  }

  // ---- the honest page ----

  function AsTx(c: Core): Tx { Tx(c.pointer, c.pages, Dense(c.delta)) }

  function AsTxs(cores: seq<Core>): (txs: seq<Tx>)
    ensures |txs| == |cores|
  {
    seq(|cores|, i requires 0 <= i < |cores| => AsTx(cores[i]))
  }

  function Cores(txs: seq<SignedTx>): (cores: seq<Core>)
    ensures |cores| == |txs|
  {
    seq(|txs|, i requires 0 <= i < |txs| => txs[i].core)
  }

  lemma {:induction false} AsTxsSplit(a: seq<Core>, b: seq<Core>)
    ensures AsTxs(a + b) == AsTxs(a) + AsTxs(b)
  {
  }

  /** A permuted list with its first element moved to the front. */
  lemma {:induction false} TakeOut<X>(a: seq<X>, b: seq<X>) returns (before: seq<X>, after: seq<X>)
    requires multiset(a) == multiset(b) && a != []
    ensures b == before + [a[0]] + after && multiset(a[1..]) == multiset(before + after)
  {
    var x, rest := a[0], a[1..];
    assert a == [x] + rest;
    assert x in multiset(b);
    var j :| 0 <= j < |b| && b[j] == x;
    before, after := b[..j], b[j + 1..];
    assert b == before + [x] + after;
    assert multiset(a) == multiset(rest) + multiset{x};
    assert multiset(b) == multiset(before + after) + multiset{x};
    Cancel(multiset(rest), multiset(before + after), x);
  }

  lemma {:induction false} Cancel<X>(p: multiset<X>, q: multiset<X>, x: X)
    requires p + multiset{x} == q + multiset{x}
    ensures p == q
  {
    assert p == (p + multiset{x}) - multiset{x};
    assert q == (q + multiset{x}) - multiset{x};
  }

  lemma {:induction false} AsTxsAround(before: seq<Core>, x: Core, after: seq<Core>)
    ensures multiset(AsTxs(before + [x] + after)) == multiset{AsTx(x)} + multiset(AsTxs(before + after))
  {
    AsTxsSplit(before, after);
    AsTxsSplit(before + [x], after);
    AsTxsSplit(before, [x]);
    assert AsTxs([x]) == [AsTx(x)];
  }

  lemma {:induction false} AsTxsPermute(a: seq<Core>, b: seq<Core>)
    requires multiset(a) == multiset(b)
    ensures multiset(AsTxs(a)) == multiset(AsTxs(b))
    decreases |a|
  {
    if a == [] {
      assert |b| == |multiset(b)| == |multiset(a)| == 0;
    } else {
      var before, after := TakeOut(a, b);
      AsTxsPermute(a[1..], before + after);
      AsTxsAround(before, a[0], after);
      AsTxsAround([], a[0], a[1..]);
      assert [] + [a[0]] + a[1..] == a && [] + a[1..] == a[1..];
    }
  }

  ghost predicate GoodTable(spans: seq<Span>) {
    spans != [] && Within(spans, EndOf(spans)) && Fits(spans, EndOf(spans))
  }

  /** The consensus rule, one page wide: the parent page plus the trimmed mean of its claimants. */
  function PageAfter(parentPage: seq<int64>, txs: seq<Tx>, spans: seq<Span>, pid: nat): seq<int64>
    requires pid < |spans| && spans[pid].start <= spans[pid].end <= EndOf(spans)
    requires |parentPage| == spans[pid].end - spans[pid].start
    requires forall j :: 0 <= j < |Claimants(txs, pid)| ==> Claimants(txs, pid)[j].body.Len() == EndOf(spans)
  {
    var claimants := Claimants(txs, pid);
    if claimants == [] then parentPage
    else AddRow(parentPage, PageMean(claimants, spans[pid], EndOf(spans)))
  }

  /** numpy addition of two rows: a row of length one is stretched, other lengths must be equal. */
  function Broadcast(a: seq<int64>, b: seq<int64>): (r: Option<seq<int64>>)
    ensures |a| == |b| ==> r == Some(AddRow(a, b))
  {
    if |a| == |b| then Some(AddRow(a, b))
    else if |b| == 1 then Some(AddRow(a, seq(|a|, _ => b[0])))
    else if |a| == 1 then Some(AddRow(seq(|b|, _ => a[0]), b))
    else None
  }

  function PageOutcome(parentPage: seq<int64>, txs: seq<Tx>, spans: seq<Span>, pid: nat): Option<seq<int64>>
    requires pid < |spans|
    requires forall j :: 0 <= j < |Claimants(txs, pid)| ==> Claimants(txs, pid)[j].body.Len() == EndOf(spans)
  {
    var claimants := Claimants(txs, pid);
    if claimants == [] then Some(parentPage)
    else Broadcast(parentPage, PageMean(claimants, Clip(spans[pid], EndOf(spans)), EndOf(spans)))
  }

  lemma {:induction false} ClippedPage(parentPage: seq<int64>, txs: seq<Tx>, spans: seq<Span>, pid: nat)
    requires pid < |spans| && spans[pid].start <= spans[pid].end <= EndOf(spans)
    requires |parentPage| == spans[pid].end - spans[pid].start
    requires forall j :: 0 <= j < |Claimants(txs, pid)| ==> Claimants(txs, pid)[j].body.Len() == EndOf(spans)
    ensures PageOutcome(parentPage, txs, spans, pid) == Some(PageAfter(parentPage, txs, spans, pid))
  {
    var claimants, s, dim := Claimants(txs, pid), spans[pid], EndOf(spans);
    if claimants != [] {
      if s.start == s.end {
        assert PageMean(claimants, Clip(s, dim), dim) == [] == PageMean(claimants, s, dim);
      } else {
        assert Clip(s, dim) == s;
      }
    }
  }

  function AddRow(a: seq<int64>, b: seq<int64>): (r: seq<int64>)
    requires |a| == |b|
    ensures |r| == |a|
  {
    seq(|a|, i requires 0 <= i < |a| => Add(a[i], b[i]))
  }

  /** The honest leaf of a page: that page of the dense transition. */
  ghost function HonestLeaf(w: seq<int64>, cores: seq<Core>, spans: seq<Span>, pid: nat): Digest
    requires GoodTable(spans) && |w| == EndOf(spans) && pid < |spans|
  {
    Leaf(Slice(Transition(w, AsTxs(cores), spans), spans[pid]))
  }

  lemma {:induction false} SliceOfSum(w: seq<int64>, post: seq<int64>, mean: seq<int64>, s: Span)
    requires s.start <= s.end <= |w| && |post| == |w| && |mean| == s.end - s.start
    requires forall i :: s.start <= i < s.end ==> post[i] == Add(w[i], mean[i - s.start])
    ensures Slice(post, s) == AddRow(Slice(w, s), mean)
  {
    forall k | 0 <= k < s.end - s.start ensures Slice(post, s)[k] == AddRow(Slice(w, s), mean)[k] {
      assert post[s.start + k] == Add(w[s.start + k], mean[s.start + k - s.start]);
    }
  }

  lemma {:induction false} SliceUnmoved(w: seq<int64>, post: seq<int64>, s: Span)
    requires s.start <= s.end <= |w| && |post| == |w| && forall i :: s.start <= i < s.end ==> post[i] == w[i]
    ensures Slice(post, s) == Slice(w, s)
  {
  }

  /** A page nobody claims stays. */
  lemma {:induction false} PageStays(w: seq<int64>, txs: seq<Tx>, spans: seq<Span>, pid: nat)
    requires GoodTable(spans) && |w| == EndOf(spans) && pid < |spans| && Claimants(txs, pid) == []
    ensures Slice(Transition(w, txs, spans), spans[pid]) == Slice(w, spans[pid])
  {
    var s, post := spans[pid], Transition(w, txs, spans);
    forall i | s.start <= i < s.end ensures post[i] == w[i] { UnclaimedDelta(txs, spans, |w|, pid, i); }
    SliceUnmoved(w, post, s);
  }

  lemma {:induction false} CoordinateMoves(w: seq<int64>, txs: seq<Tx>, spans: seq<Span>, pid: nat, i: nat)
    requires GoodTable(spans) && |w| == EndOf(spans) && pid < |spans| && spans[pid].Has(i)
    requires Column(txs, pid, i) != []
    ensures Transition(w, txs, spans)[i] == Add(w[i], TrimmedMean.TrimmedMean(Column(txs, pid, i)))
  {
    PageOfUnique(spans, |w|, pid, i);
  }

  lemma {:induction false} RowMoves(
    w: seq<int64>, txs: seq<Tx>, spans: seq<Span>, pid: nat, i: nat, post: seq<int64>, mean: seq<int64>)
    requires spans != [] && |w| == EndOf(spans) && pid < |spans| && spans[pid].start <= i < spans[pid].end <= |w|
    requires forall j :: 0 <= j < |Claimants(txs, pid)| ==> Claimants(txs, pid)[j].body.Len() == |w|
    requires Claimants(txs, pid) != [] && mean == PageMean(Claimants(txs, pid), spans[pid], |w|)
    requires |post| == |w| && post[i] == Add(w[i], TrimmedMean.TrimmedMean(Column(txs, pid, i)))
    ensures post[i] == Add(w[i], mean[i - spans[pid].start])
  {
    PageMeanAt(txs, pid, spans[pid], |w|, i);
  }

  /** A claimed page moves by its claimants' trimmed mean. */
  lemma {:induction false} PageMoves(w: seq<int64>, txs: seq<Tx>, spans: seq<Span>, pid: nat, mean: seq<int64>)
    requires GoodTable(spans) && |w| == EndOf(spans) && pid < |spans| && Claimants(txs, pid) != []
    requires forall j :: 0 <= j < |Claimants(txs, pid)| ==> Claimants(txs, pid)[j].body.Len() == |w|
    requires mean == PageMean(Claimants(txs, pid), spans[pid], |w|)
    ensures Slice(Transition(w, txs, spans), spans[pid]) == AddRow(Slice(w, spans[pid]), mean)
  {
    var s, post := spans[pid], Transition(w, txs, spans);
    forall i | s.start <= i < s.end ensures post[i] == Add(w[i], mean[i - s.start]) {
      CoordinateMoves(w, txs, spans, pid, i);
      RowMoves(w, txs, spans, pid, i, post, mean);
    }
    SliceOfSum(w, post, mean, s);
  }

  /** One page of the dense transition is the one-page rule on the parent's page. */
  lemma {:induction false} PageAfterIsTransition(w: seq<int64>, txs: seq<Tx>, spans: seq<Span>, pid: nat)
    requires GoodTable(spans) && |w| == EndOf(spans) && pid < |spans|
    requires forall j :: 0 <= j < |Claimants(txs, pid)| ==> Claimants(txs, pid)[j].body.Len() == EndOf(spans)
    ensures PageAfter(Slice(w, spans[pid]), txs, spans, pid) == Slice(Transition(w, txs, spans), spans[pid])
  {
    if Claimants(txs, pid) == [] {
      PageStays(w, txs, spans, pid);
    } else {
      PageMoves(w, txs, spans, pid, PageMean(Claimants(txs, pid), spans[pid], |w|));
    }
  }

  // ---- what the evidence binds ----

  /** Headers, page table and committed leaves hang together. */
  ghost predicate Anchored(p: Evidence) {
    && p.header.Head? && p.parent.Head? && p.header.prev == p.parent
    && p.model == p.parent.modelRoot && 0 <= p.pageId < |p.model|
    && |p.leaves| == |p.model| && Merkle.Root(p.leaves) == p.header.stateRoot
  }

  /** The transactions are drawn from the committed set and as many as it. */
  ghost predicate Drawn(p: Evidence)
    requires Anchored(p)
  {
    && multiset(p.txids) == p.header.txset && |p.txs| == |p.txids| == p.header.nTxs
    && forall i :: 0 <= i < |p.txs| ==> GoodTx(p, p.txs[i])
  }

  predicate GoodTx(p: Evidence, t: SignedTx)
    requires p.parent.Head?
  {
    t.core in p.txids && t.signed && t.core.baseHeight == p.parent.height
  }

  /** Every claimant's body is supplied and is the one its delta hash commits. */
  ghost predicate Backed(p: Evidence)
    requires Anchored(p)
  {
    forall i :: 0 <= i < |p.txs| && p.pageId in p.txs[i].core.pages ==> HasBody(p, p.txs[i].core)
  }

  ghost predicate HasBody(p: Evidence, c: Core) {
    c in p.bodies && IsDense(p.bodies[c], EndOf(p.model), c.delta)
  }

  /** The parent page has the page's length and folds to the parent's state root. */
  ghost predicate Rooted(p: Evidence)
    requires Anchored(p)
  {
    && |p.parentPage| == p.model[p.pageId].end - p.model[p.pageId].start
    && Climb(Leaf(p.parentPage), p.path) == p.parent.stateRoot
  }

  ghost predicate Binds(p: Evidence) { Anchored(p) && Drawn(p) && Backed(p) && Rooted(p) }

  lemma {:induction false} ClaimantsClaim(cores: seq<Core>, pid: nat, j: nat)
    requires j < |Claimants(AsTxs(cores), pid)|
    ensures exists i :: 0 <= i < |cores| && pid in cores[i].pages && Claimants(AsTxs(cores), pid)[j] == AsTx(cores[i])
    decreases |cores|
  {
    var txs := AsTxs(cores);
    assert txs[1..] == AsTxs(cores[1..]);
    var own := if pid in txs[0].pages then 1 else 0;
    if j < own {
      assert Claimants(txs, pid)[j] == AsTx(cores[0]);
    } else {
      ClaimantsClaim(cores[1..], pid, j - own);
      var i :| 0 <= i < |cores| - 1 && pid in cores[1..][i].pages
        && Claimants(AsTxs(cores[1..]), pid)[j - own] == AsTx(cores[1..][i]);
      assert cores[i + 1] == cores[1..][i];
    }
  }

  /** Claimants' bodies have the model's dimension. */
  ghost predicate FullLength(cores: seq<Core>, spans: seq<Span>, pid: nat) {
    forall j :: 0 <= j < |Claimants(AsTxs(cores), pid)| ==> Claimants(AsTxs(cores), pid)[j].body.Len() == EndOf(spans)
  }

  lemma {:induction false} BackedFullLength(p: Evidence)
    requires Anchored(p) && Backed(p)
    ensures FullLength(Cores(p.txs), p.model, p.pageId)
  {
    var cores, pid := Cores(p.txs), p.pageId;
    forall j | 0 <= j < |Claimants(AsTxs(cores), pid)|
      ensures Claimants(AsTxs(cores), pid)[j].body.Len() == EndOf(p.model)
    {
      ClaimantsClaim(cores, pid, j);
      var i :| 0 <= i < |cores| && pid in cores[i].pages && Claimants(AsTxs(cores), pid)[j] == AsTx(cores[i]);
      assert HasBody(p, p.txs[i].core);
    }
  }

  /** The page's span lies inside the vector. */
  predicate InRange(spans: seq<Span>, pid: int) {
    0 <= pid < |spans| ==> spans[pid].start <= spans[pid].end <= EndOf(spans)
  }

  /** The page an honest block would have committed, from the evidence alone. */
  ghost function Recomputed(p: Evidence): seq<int64>
    requires Binds(p) && InRange(p.model, p.pageId)
  {
    BackedFullLength(p);
    PageAfter(p.parentPage, AsTxs(Cores(p.txs)), p.model, p.pageId)
  }

  /**
   * The recomputation as numpy performs it: the bodies' slices are clipped to
   * the vector, and adding them to the page needs equal lengths or a length of
   * one; it raises otherwise.
   */
  ghost function Outcome(p: Evidence): Option<seq<int64>>
    requires Binds(p)
  {
    BackedFullLength(p);
    PageOutcome(p.parentPage, AsTxs(Cores(p.txs)), p.model, p.pageId)
  }

  /** Inside the vector the outcome is the page one expects. */
  lemma {:induction false} OutcomeInRange(p: Evidence)
    requires Binds(p) && InRange(p.model, p.pageId)
    ensures Outcome(p) == Some(Recomputed(p))
  {
    BackedFullLength(p);
    ClippedPage(p.parentPage, AsTxs(Cores(p.txs)), p.model, p.pageId);
  }

  // ---- verify ----

  method CheckTxs(p: Evidence) returns (ok: bool)
    requires p.parent.Head?
    ensures ok <==> forall i :: 0 <= i < |p.txs| ==> GoodTx(p, p.txs[i])
  {
    for k := 0 to |p.txs|
      invariant forall i :: 0 <= i < k ==> GoodTx(p, p.txs[i])
    {
      if !GoodTx(p, p.txs[k]) { return false; }
    }
    return true;
  }

  method CheckBodies(p: Evidence) returns (ok: bool)
    requires Anchored(p)
    ensures ok <==> Backed(p)
  {
    for k := 0 to |p.txs|
      invariant forall i :: 0 <= i < k && p.pageId in p.txs[i].core.pages ==> HasBody(p, p.txs[i].core)
    {
      var c := p.txs[k].core;
      if p.pageId in c.pages {
        if c !in p.bodies { return false; }
        var d := Densify(p.bodies[c], EndOf(p.model));
        if d.None? { return false; }
        if d.value != c.delta {
          assert !HasBody(p, c) by {
            if HasBody(p, c) { DenseUnique(p.bodies[c], EndOf(p.model), d.value, c.delta); }
          }
          return false;
        }
      }
    }
    return true;
  }

  /** d lists the body's coordinates in ascending order, and is zero elsewhere. */
  ghost predicate Encoded(b: SparseBody, d: seq<int64>) {
    && b.n == |d| && |b.idx| == |b.val|
    && (forall j, k :: 0 <= j < k < |b.idx| ==> b.idx[j] < b.idx[k])
    && (forall k :: 0 <= k < |b.idx| ==> 0 <= b.idx[k] < |d| && d[b.idx[k]] == b.val[k])
    && (forall i :: 0 <= i < |d| && d[i] != 0 ==> exists k :: 0 <= k < |b.idx| && b.idx[k] == i)
  }

  /** A supplied transaction: signed, committed, built on the parent, and its body there if it claims the page. */
  ghost predicate Supplied(p: Evidence, t: SignedTx)
    requires p.header.Head? && p.parent.Head? && p.model != []
  {
    && t.signed && t.core in p.header.txset && t.core.baseHeight == p.parent.height
    && (p.pageId in t.core.pages ==>
          t.core in p.bodies && |t.core.delta| == p.model[|p.model| - 1].end && Encoded(p.bodies[t.core], t.core.delta))
  }

  /** Everything the evidence must show, on its own fields. */
  ghost predicate Documented(p: Evidence) {
    && p.header.Head? && p.parent.Head? && p.header.prev == p.parent && p.parent.modelRoot == p.model
    && 0 <= p.pageId < |p.model| == |p.leaves| && p.header.stateRoot == Merkle.Root(p.leaves)
    && multiset(p.txids) == p.header.txset && |p.txids| == |p.txs| == p.header.nTxs
    && (forall i :: 0 <= i < |p.txs| ==> Supplied(p, p.txs[i]))
    && p.model[p.pageId].start + |p.parentPage| == p.model[p.pageId].end
    && p.parent.stateRoot == Climb(Leaf(p.parentPage), p.path)
  }

  lemma {:induction false} EncodedIs(b: SparseBody, dim: nat, d: seq<int64>)
    ensures IsDense(b, dim, d) <==> |d| == dim && Encoded(b, d)
  {
    if |d| == dim && Encoded(b, d) {
      forall i | 0 <= i < dim && i !in b.idx ensures d[i] == 0 {
      }
    }
  }

  lemma {:induction false} SuppliedIs(p: Evidence, t: SignedTx)
    requires Anchored(p) && multiset(p.txids) == p.header.txset
    ensures Supplied(p, t) <==> GoodTx(p, t) && (p.pageId in t.core.pages ==> HasBody(p, t.core))
  {
    assert t.core in p.txids <==> t.core in multiset(p.txids);
    if t.core in p.bodies { EncodedIs(p.bodies[t.core], EndOf(p.model), t.core.delta); }
  }

  /** Evidence binds exactly when it documents its case. */
  lemma {:induction false} BindsIs(p: Evidence)
    ensures Binds(p) <==> Documented(p)
  {
    if Anchored(p) && multiset(p.txids) == p.header.txset {
      forall i | 0 <= i < |p.txs|
        ensures Supplied(p, p.txs[i])
          <==> GoodTx(p, p.txs[i]) && (p.pageId in p.txs[i].core.pages ==> HasBody(p, p.txs[i].core))
      {
        SuppliedIs(p, p.txs[i]);
      }
    }
  }

  /** First-principles verification: fraud exactly when everything binds and the recomputed leaf differs. */
  method Verify(p: Evidence) returns (v: Verdict)
    ensures v == Fraudulent <==> Binds(p) && Outcome(p).Some? && Leaf(Outcome(p).value) != p.leaves[p.pageId]
    ensures v == Raised <==> Binds(p) && Outcome(p).None?
    ensures v == Fraudulent || v == Raised ==> Documented(p)
    ensures InRange(p.model, p.pageId) ==> (v == Fraudulent <==> Binds(p) && Leaf(Recomputed(p)) != p.leaves[p.pageId])
  {
    if p.header.Origin? || p.parent.Origin? { return Invalid("malformed headers"); }
    if p.header.prev != p.parent { return Invalid("header does not extend parent"); }
    if p.model != p.parent.modelRoot { return Invalid("parent model does not match model_root"); }
    if p.pageId < 0 || p.pageId >= |p.model| { return Invalid("page id out of range"); }
    if |p.leaves| != |p.model| { return Invalid("growth blocks are not disputable"); }
    var root := RootFromHashes(p.leaves);
    if root != p.header.stateRoot { return Invalid("committed leaves do not fold to state_root"); }
    if multiset(p.txids) != p.header.txset { return Invalid("txids do not reproduce txset_root"); }
    if |p.txs| != |p.txids| || |p.txids| != p.header.nTxs { return Invalid("tx list incomplete"); }
    var txsOk := CheckTxs(p);
    if !txsOk { return Invalid("bad tx"); }
    var bodiesOk := CheckBodies(p);
    if !bodiesOk { return Invalid("bad body"); }
    var span := p.model[p.pageId];
    if |p.parentPage| != span.end - span.start { return Invalid("parent page span mismatch"); }
    var included := Merkle.Verify(p.parentPage, p.pageId, p.path, p.parent.stateRoot);
    if !included { return Invalid("parent page not in parent state_root"); }
    BackedFullLength(p);
    BindsIs(p);
    if InRange(p.model, p.pageId) { OutcomeInRange(p); }
    var page := PageOutcome(p.parentPage, AsTxs(Cores(p.txs)), p.model, p.pageId);
    if page.None? { return Raised; }
    if Leaf(page.value) == p.leaves[p.pageId] { return Invalid("page aggregates correctly"); }
    return Fraudulent;
  }

  // ---- soundness ----

  /** The accused block as it is: the parent's state, the committed leaves and the block's transactions. */
  ghost predicate Truth(h: Head, w: seq<int64>, leaves: seq<Digest>, cores: seq<Core>) {
    && h.Head? && h.prev.Head? && GoodTable(h.prev.modelRoot) && |w| == EndOf(h.prev.modelRoot)
    && h.prev.stateRoot == Merkle.Root(Leaves(w, h.prev.modelRoot))
    && |leaves| == |h.prev.modelRoot| && Merkle.Root(leaves) == h.stateRoot
    && multiset(cores) == h.txset
  }

  lemma {:induction false} ClaimantsOnce(txs: seq<Tx>, pid: nat)
    ensures Claimants(Claimants(txs, pid), pid) == Claimants(txs, pid)
    decreases |txs|
  {
    if txs != [] {
      var rest := Claimants(txs[1..], pid);
      ClaimantsOnce(txs[1..], pid);
      if pid in txs[0].pages { assert ([txs[0]] + rest)[1..] == rest; } else { assert [] + rest == rest; }
    }
  }

  /** The honest page depends on the page's claimants alone, in any order. */
  lemma {:induction false} ClaimantsDecide(w: seq<int64>, a: seq<Tx>, b: seq<Tx>, spans: seq<Span>, pid: nat)
    requires GoodTable(spans) && |w| == EndOf(spans) && pid < |spans|
    requires forall j :: 0 <= j < |Claimants(a, pid)| ==> Claimants(a, pid)[j].body.Len() == EndOf(spans)
    requires multiset(Claimants(a, pid)) == multiset(Claimants(b, pid))
    ensures Slice(Transition(w, a, spans), spans[pid]) == Slice(Transition(w, b, spans), spans[pid])
  {
    var x, y := Claimants(a, pid), Claimants(b, pid);
    ClaimantsOnce(a, pid);
    ClaimantsOnce(b, pid);
    forall j | 0 <= j < |y| ensures y[j].body.Len() == EndOf(spans) {
      assert y[j] in multiset(x);
      assert y[j] in x;
    }
    PageAfterIsTransition(w, a, spans, pid);
    PageAfterIsTransition(w, b, spans, pid);
    PageAfterIsTransition(w, x, spans, pid);
    PageAfterIsTransition(w, y, spans, pid);
    TxOrderIrrelevant(x, y, spans, w);
  }

  /** The supplied and the committed claimants of the page are the same, order aside. */
  ghost predicate SameClaimants(p: Evidence, cores: seq<Core>)
    requires p.pageId >= 0
  {
    multiset(Claimants(AsTxs(Cores(p.txs)), p.pageId)) == multiset(Claimants(AsTxs(cores), p.pageId))
  }

  /** Evidence that binds, with the page's side letters and claimants, is about the block as it is. */
  lemma {:induction false} EvidenceIsTrue(p: Evidence, w: seq<int64>, leaves: seq<Digest>, cores: seq<Core>)
    requires Binds(p) && Truth(p.header, w, leaves, cores)
    requires HasSides(p.path, SidesOf(|p.model|, p.pageId)) && SameClaimants(p, cores)
    ensures Leaf(Recomputed(p)) == HonestLeaf(w, cores, p.model, p.pageId)
    ensures p.leaves == leaves
  {
    BoundPage(p, w, leaves, cores);
    BackedFullLength(p);
    ClaimantsDecide(w, AsTxs(Cores(p.txs)), AsTxs(cores), p.model, p.pageId);
  }

  // ---- exactly when the recomputed page is the honest one ----

  /** The supplied and the committed transactions move every coordinate of the page alike. */
  ghost predicate SameMoves(p: Evidence, cores: seq<Core>)
    requires Anchored(p)
  {
    var span := p.model[p.pageId];
    forall i :: span.start <= i < span.end ==>
      Delta(AsTxs(Cores(p.txs)), p.model, i) == Delta(AsTxs(cores), p.model, i)
  }

  /** The parent page of bound evidence, with the page's side letters, is the parent's own. */
  lemma {:induction false} BoundPage(p: Evidence, w: seq<int64>, leaves: seq<Digest>, cores: seq<Core>)
    requires Binds(p) && Truth(p.header, w, leaves, cores) && HasSides(p.path, SidesOf(|p.model|, p.pageId))
    ensures p.leaves == leaves && GoodTable(p.model) && |w| == EndOf(p.model)
    ensures Recomputed(p) == Slice(Transition(w, AsTxs(Cores(p.txs)), p.model), p.model[p.pageId])
  {
    RootInjective(p.leaves, leaves);
    ProofSound(Leaves(w, p.model), p.pageId, Leaf(p.parentPage), p.path);
    assert p.parentPage == Slice(w, p.model[p.pageId]);
    BackedFullLength(p);
    PageAfterIsTransition(w, AsTxs(Cores(p.txs)), p.model, p.pageId);
  }

  lemma {:induction false} SlicesAgree(w: seq<int64>, a: seq<Tx>, b: seq<Tx>, spans: seq<Span>, s: Span)
    requires s.start <= s.end <= |w|
    ensures Slice(Transition(w, a, spans), s) == Slice(Transition(w, b, spans), s)
      <==> forall i :: s.start <= i < s.end ==> Delta(a, spans, i) == Delta(b, spans, i)
  {
    var x, y := Transition(w, a, spans), Transition(w, b, spans);
    forall i | s.start <= i < s.end ensures x[i] == y[i] <==> Delta(a, spans, i) == Delta(b, spans, i) {
      AddCancels(w[i], Delta(a, spans, i), Delta(b, spans, i));
    }
    if Slice(x, s) == Slice(y, s) {
      forall i | s.start <= i < s.end ensures x[i] == y[i] {
        assert Slice(x, s)[i - s.start] == Slice(y, s)[i - s.start];
      }
    }
  }

  /** Bound evidence recomputes the honest leaf if and only if its transactions move the page alike. */
  lemma {:induction false} RecomputesExactly(p: Evidence, w: seq<int64>, leaves: seq<Digest>, cores: seq<Core>)
    requires Binds(p) && Truth(p.header, w, leaves, cores) && HasSides(p.path, SidesOf(|p.model|, p.pageId))
    ensures p.leaves == leaves
    ensures Leaf(Recomputed(p)) == HonestLeaf(w, cores, p.model, p.pageId) <==> SameMoves(p, cores)
  {
    BoundPage(p, w, leaves, cores);
    SlicesAgree(w, AsTxs(Cores(p.txs)), AsTxs(cores), p.model, p.model[p.pageId]);
  }

  /** An honest page is cleared by bound evidence if and only if the evidence moves it alike. */
  lemma {:induction false} HonestClearedExactly(p: Evidence, w: seq<int64>, leaves: seq<Digest>, cores: seq<Core>)
    requires Binds(p) && Truth(p.header, w, leaves, cores) && HasSides(p.path, SidesOf(|p.model|, p.pageId))
    requires leaves[p.pageId] == HonestLeaf(w, cores, p.model, p.pageId)
    ensures Leaf(Recomputed(p)) == p.leaves[p.pageId] <==> SameMoves(p, cores)
  {
    RecomputesExactly(p, w, leaves, cores);
  }

  ghost predicate Distinct(cores: seq<Core>) { forall i, j :: 0 <= i < j < |cores| ==> cores[i] != cores[j] }

  lemma {:induction false} DistinctOnce(c: seq<Core>, x: Core)
    requires Distinct(c)
    ensures multiset(c)[x] <= 1
    decreases |c|
  {
    if c != [] {
      var n := |c| - 1;
      DistinctOnce(c[..n], x);
      assert c == c[..n] + [c[n]];
      assert c[n] == x ==> x !in c[..n];
    }
  }

  /** As many distinct members as the list is long: a permutation of it. */
  lemma {:induction false} DistinctCovers(c: seq<Core>, d: seq<Core>)
    requires Distinct(c) && |c| == |d| && forall i :: 0 <= i < |c| ==> c[i] in d
    ensures multiset(c) == multiset(d)
  {
    var a, b := multiset(c), multiset(d);
    forall x | x in a ensures a[x] <= b[x] {
      DistinctOnce(c, x);
      assert x in c && x in d;
    }
    assert a <= b && |b - a| == |b| - |a| == 0;
    assert b == a + (b - a);
  }

  lemma {:induction false} ClaimantsPermute(a: seq<Tx>, b: seq<Tx>, pid: nat)
    requires multiset(a) == multiset(b)
    ensures multiset(Claimants(a, pid)) == multiset(Claimants(b, pid))
    decreases |a|
  {
    if a == [] {
      assert |b| == |multiset(b)| == |multiset(a)| == 0;
    } else {
      var before, after := TakeOut(a, b);
      var x := a[0];
      ClaimantsPermute(a[1..], before + after, pid);
      ClaimantsConcat(before + [x], after, pid);
      ClaimantsConcat(before, [x], pid);
      ClaimantsConcat(before, after, pid);
    }
  }

  /** Pairwise distinct transactions are all of the block's, so they have its claimants. */
  lemma {:induction false} DistinctHasClaimants(p: Evidence, cores: seq<Core>)
    requires Anchored(p) && Drawn(p) && multiset(cores) == p.header.txset && Distinct(Cores(p.txs))
    ensures SameClaimants(p, cores)
  {
    var mine := Cores(p.txs);
    forall i | 0 <= i < |mine| ensures mine[i] in p.txids { assert GoodTx(p, p.txs[i]); }
    DistinctCovers(mine, p.txids);
    AsTxsPermute(mine, cores);
    ClaimantsPermute(AsTxs(mine), AsTxs(cores), p.pageId);
  }

  /**
   * Any supplied proof with the page's own side letters and claimants convicts
   * exactly when the block's committed leaf differs from the honest one.
   */
  lemma {:induction false} FraudIsReal(p: Evidence, w: seq<int64>, leaves: seq<Digest>, cores: seq<Core>)
    requires Binds(p) && Truth(p.header, w, leaves, cores) && SameClaimants(p, cores)
    requires HasSides(p.path, SidesOf(|p.model|, p.pageId))
    ensures Leaf(Recomputed(p)) != p.leaves[p.pageId] <==> leaves[p.pageId] != HonestLeaf(w, cores, p.model, p.pageId)
  {
    EvidenceIsTrue(p, w, leaves, cores);
  }

  /** In particular, any supplied proof with pairwise distinct transactions. */
  lemma {:induction false} DistinctFraudIsReal(p: Evidence, w: seq<int64>, leaves: seq<Digest>, cores: seq<Core>)
    requires Binds(p) && Truth(p.header, w, leaves, cores) && Distinct(Cores(p.txs))
    requires HasSides(p.path, SidesOf(|p.model|, p.pageId))
    ensures Leaf(Recomputed(p)) != p.leaves[p.pageId] <==> leaves[p.pageId] != HonestLeaf(w, cores, p.model, p.pageId)
  {
    DistinctHasClaimants(p, cores);
    FraudIsReal(p, w, leaves, cores);
  }

  // ---- build ----

  /** The prover's block: signed transactions on the parent's height with full-length bodies. */
  ghost predicate Provable(h: Head, txs: seq<SignedTx>) {
    && h.Head? && h.prev.Head? && h.nTxs == |txs|
    && forall i :: 0 <= i < |txs| ==>
         txs[i].signed && txs[i].core.baseHeight == h.prev.height && |txs[i].core.delta| == EndOf(h.prev.modelRoot)
  }

  /** Sparse bodies of the page's claimants. */
  method ClaimantBodies(txs: seq<SignedTx>, pid: nat, dim: nat) returns (bodies: map<Core, SparseBody>)
    requires forall i :: 0 <= i < |txs| ==> |txs[i].core.delta| == dim
    ensures forall i :: 0 <= i < |txs| && pid in txs[i].core.pages ==>
      txs[i].core in bodies && IsDense(bodies[txs[i].core], dim, txs[i].core.delta)
  {
    bodies := map[];
    for k := 0 to |txs|
      invariant forall c :: c in bodies ==> |c.delta| == dim && IsDense(bodies[c], dim, c.delta)
      invariant forall i :: 0 <= i < k && pid in txs[i].core.pages ==> txs[i].core in bodies
    {
      if pid in txs[k].core.pages {
        var b := Sparsify(txs[k].core.delta);
        bodies := bodies[txs[k].core := b];
      }
    }
  }

  method PagesOf(w: seq<int64>, spans: seq<Span>) returns (pages: seq<seq<int64>>)
    requires Within(spans, |w|)
    ensures |pages| == |spans| && LeafHashes(pages) == Leaves(w, spans)
  {
    pages := [];
    for i := 0 to |spans|
      invariant |pages| == i && forall k :: 0 <= k < i ==> pages[k] == Slice(w, spans[k])
    {
      pages := pages + [Slice(w, spans[i])];
    }
  }

  method Build(h: Head, leaves: seq<Digest>, pid: nat, txs: seq<SignedTx>, w: seq<int64>) returns (p: Evidence)
    requires Truth(h, w, leaves, Cores(txs)) && Provable(h, txs) && pid < |h.prev.modelRoot|
    ensures p.header == h && p.leaves == leaves && p.pageId == pid && p.txs == txs && p.model == h.prev.modelRoot
    ensures Binds(p) && HasSides(p.path, SidesOf(|p.model|, pid))
  {
    var spans := h.prev.modelRoot;
    var bodies := ClaimantBodies(txs, pid, EndOf(spans));
    var pages := PagesOf(w, spans);
    var levels := Merkle.Build(pages);
    var path := Merkle.Proof(levels, pid);
    ProofComplete(Leaves(w, spans), pid);
    PathHasSides(Leaves(w, spans), pid);
    p := Evidence(h, h.prev, spans, leaves, pid, Cores(txs), txs, bodies, Slice(w, spans[pid]), path);
    forall i | 0 <= i < |txs| ensures GoodTx(p, txs[i]) { assert txs[i].core == p.txids[i]; }
  }

  /** verify(build(...)) convicts exactly when the committed leaf is not the honest one. */
  method BuildThenVerify(h: Head, leaves: seq<Digest>, pid: nat, txs: seq<SignedTx>, w: seq<int64>) returns (v: Verdict)
    requires Truth(h, w, leaves, Cores(txs)) && Provable(h, txs) && pid < |h.prev.modelRoot|
    ensures v == Fraudulent <==> leaves[pid] != HonestLeaf(w, Cores(txs), h.prev.modelRoot, pid)
  {
    var p := Build(h, leaves, pid, txs, w);
    v := Verify(p);
    EvidenceIsTrue(p, w, leaves, Cores(txs));
  }
}
