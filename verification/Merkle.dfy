/**
 * The page-Merkle tree of rig/merkle.py. SHA-256 is an injective constructor:
 * the 0x00/0x01 domain separators are the two constructors, and Zero is the
 * all-zero placeholder the engine writes before it rehashes a page.
 */
module Merkle {
  import opened Int64

  datatype Digest = Zero | Leaf(page: seq<int64>) | Node(left: Digest, right: Digest)
  datatype Side = L | R
  datatype Step = Step(side: Side, sibling: Digest)

  /** One level up; an odd node is hashed with itself. */
  function Up(level: seq<Digest>): (next: seq<Digest>)
    ensures |next| == (|level| + 1) / 2
  {
    seq((|level| + 1) / 2, i requires 0 <= i < (|level| + 1) / 2 =>
      Node(level[2 * i], if 2 * i + 1 < |level| then level[2 * i + 1] else level[2 * i]))
  }

  /** Two digests have their node above them. */
  lemma {:induction false} UpPair(a: Digest, b: Digest)
    ensures Up([a, b]) == [Node(a, b)] && Root([a, b]) == Node(a, b)
  {
  }

  /** Behind an even number of digests, the level above goes on as if nothing were there. */
  lemma {:induction false} UpAfter(a: seq<Digest>, b: seq<Digest>)
    requires |a| % 2 == 0
    ensures Up(a + b) == Up(a) + Up(b)
  {
    var c, u := a + b, Up(a) + Up(b);
    assert |Up(c)| == |u|;
    forall i | 0 <= i < |u| ensures Up(c)[i] == u[i] {
      if i < |a| / 2 {
        assert c[2 * i] == a[2 * i] && c[2 * i + 1] == a[2 * i + 1];
      } else {
        assert c[2 * i] == b[2 * (i - |a| / 2)];
      }
    }
  }

  /** An odd level, but a single root, has the root of the same level with its last digest repeated. */
  lemma {:induction false} OddRepeatsLast(level: seq<Digest>)
    requires |level| % 2 == 1 && |level| > 1
    ensures Root(level) == Root(level + [level[|level| - 1]])
  {
    assert Up(level) == Up(level + [level[|level| - 1]]);
  }

  function Levels(level: seq<Digest>): (ls: seq<seq<Digest>>)
    requires level != []
    ensures |ls| > 0 && ls[0] == level && |ls[|ls| - 1]| == 1
    decreases |level|
  {
    if |level| == 1 then [level] else [level] + Levels(Up(level))
  }

  function Root(level: seq<Digest>): Digest
    requires level != []
    decreases |level|
  {
    if |level| == 1 then level[0] else Root(Up(level))
  }

  lemma {:induction false} RootIsTopLevel(level: seq<Digest>)
    requires level != []
    ensures var ls := Levels(level); ls[|ls| - 1][0] == Root(level)
    decreases |level|
  {
    if |level| > 1 { RootIsTopLevel(Up(level)); }
  }

  function LeafHashes(pages: seq<seq<int64>>): (ls: seq<Digest>)
    ensures |ls| == |pages|
  {
    seq(|pages|, i requires 0 <= i < |pages| => Leaf(pages[i]))
  }

  lemma {:induction false} LevelsJoin(done: seq<seq<Digest>>, last: seq<Digest>, rest: seq<seq<Digest>>)
    requires done != [] && done[|done| - 1] == last
    ensures done + rest == done[..|done| - 1] + ([last] + rest)
  {
  }

  /** build: the tree, level by level. */
  method Build(pages: seq<seq<int64>>) returns (levels: seq<seq<Digest>>)
    requires pages != []
    ensures levels == Levels(LeafHashes(pages))
  {
    var level := LeafHashes(pages);
    levels := [level];
    while |level| > 1
      invariant level != [] && levels != []
      invariant levels[..|levels| - 1] + Levels(level) == Levels(LeafHashes(pages))
      invariant levels[|levels| - 1] == level
      decreases |level|
    {
      ghost var before, done := level, levels;
      level := Up(level);
      levels := levels + [level];
      LevelsJoin(done, before, Levels(level));
      assert levels[..|levels| - 1] == done;
    }
  }

  /** root_from_hashes: fold a level up to the root. */
  method RootFromHashes(leaves: seq<Digest>) returns (root: Digest)
    requires leaves != []
    ensures root == Root(leaves)
  {
    var level := leaves;
    while |level| > 1
      invariant level != [] && Root(level) == Root(leaves)
      decreases |level|
    {
      level := Up(level);
    }
    root := level[0];
  }

  function Combine(h: Digest, s: Step): Digest {
    match s.side case L => Node(s.sibling, h) case R => Node(h, s.sibling)
  }

  /** The digest a path folds to, starting from h. */
  function Climb(h: Digest, path: seq<Step>): Digest
    decreases |path|
  {
    if path == [] then h else Climb(Combine(h, path[0]), path[1..])
  }

  /** The step that index idx takes out of a level. */
  function StepAt(level: seq<Digest>, idx: nat): Step
    requires idx < |level|
  {
    if idx % 2 == 0 then Step(R, if idx + 1 < |level| then level[idx + 1] else level[idx])
    else Step(L, level[idx - 1])
  }

  function PathFor(level: seq<Digest>, idx: nat): seq<Step>
    requires idx < |level|
    decreases |level|
  {
    if |level| == 1 then [] else [StepAt(level, idx)] + PathFor(Up(level), idx / 2)
  }

  /** proof: walk the levels below the root. */
  method Proof(levels: seq<seq<Digest>>, index: nat) returns (path: seq<Step>)
    requires levels != [] && levels[0] != [] && levels == Levels(levels[0])
    requires index < |levels[0]|
    ensures path == PathFor(levels[0], index)
  {
    path := [];
    var idx: nat := index;
    for k := 0 to |levels| - 1
      invariant levels[k] != [] && levels[k..] == Levels(levels[k])
      invariant idx < |levels[k]|
      invariant path + PathFor(levels[k], idx) == PathFor(levels[0], index)
    {
      ghost var rest := levels[k..];
      assert |rest| > 1 && rest[1..] == levels[k + 1..];
      assert |levels[k]| > 1 && levels[k + 1] == Up(levels[k]);
      path := path + [StepAt(levels[k], idx)];
      idx := idx / 2;
    }
    assert |levels[|levels| - 1]| == 1;
  }

  /** verify: the index argument is accepted and never read. */
  method Verify(page: seq<int64>, index: nat, path: seq<Step>, expected: Digest) returns (ok: bool)
    ensures ok <==> Climb(Leaf(page), path) == expected
  {
    var h := Leaf(page);
    for k := 0 to |path|
      invariant Climb(h, path[k..]) == Climb(Leaf(page), path)
    {
      assert path[k..][1..] == path[k + 1..];
      h := Combine(h, path[k]);
    }
    ok := h == expected;
  }

  // ---- inclusion proofs ----

  lemma {:induction false} ProofComplete(level: seq<Digest>, idx: nat)
    requires idx < |level|
    ensures Climb(level[idx], PathFor(level, idx)) == Root(level)
    decreases |level|
  {
    if |level| > 1 {
      assert Combine(level[idx], StepAt(level, idx)) == Up(level)[idx / 2];
      ProofComplete(Up(level), idx / 2);
    }
  }

  /** The side letters of index idx in a tree over n leaves. */
  function SidesOf(n: nat, idx: nat): seq<Side>
    requires idx < n
    decreases n
  {
    if n == 1 then [] else [if idx % 2 == 0 then R else L] + SidesOf((n + 1) / 2, idx / 2)
  }

  predicate HasSides(path: seq<Step>, sides: seq<Side>) {
    |path| == |sides| && forall k :: 0 <= k < |path| ==> path[k].side == sides[k]
  }

  lemma {:induction false} PathHasSides(level: seq<Digest>, idx: nat)
    requires idx < |level|
    ensures HasSides(PathFor(level, idx), SidesOf(|level|, idx))
    decreases |level|
  {
    if |level| > 1 { PathHasSides(Up(level), idx / 2); }
  }

  /** One step, on the index's side, that gives the node above: it starts at the index and is the index's own. */
  lemma {:induction false} StepSound(level: seq<Digest>, idx: nat, h: Digest, s: Step)
    requires idx < |level| && |level| > 1 && s.side == (if idx % 2 == 0 then R else L)
    requires Combine(h, s) == Up(level)[idx / 2]
    ensures h == level[idx] && s == StepAt(level, idx)
  {
    if idx % 2 == 0 { assert 2 * (idx / 2) == idx; } else { assert 2 * (idx / 2) + 1 == idx; }
  }

  /** A path with the side letters of idx that folds to the root proves the leaf at idx and nothing else. */
  lemma {:induction false} ProofSound(level: seq<Digest>, idx: nat, h: Digest, path: seq<Step>)
    requires idx < |level|
    requires HasSides(path, SidesOf(|level|, idx))
    requires Climb(h, path) == Root(level)
    ensures h == level[idx] && path == PathFor(level, idx)
    decreases |level|
  {
    if |level| > 1 {
      ProofSound(Up(level), idx / 2, Combine(h, path[0]), path[1..]);
      StepSound(level, idx, h, path[0]);
      assert path == [path[0]] + path[1..];
    }
  }

  /** Among paths that verify, exactly those with the side letters of idx are about the leaf at idx. */
  lemma {:induction false} ProofExact(level: seq<Digest>, idx: nat, h: Digest, path: seq<Step>)
    requires idx < |level| && Climb(h, path) == Root(level)
    ensures HasSides(path, SidesOf(|level|, idx)) <==> (h == level[idx] && path == PathFor(level, idx))
  {
    PathHasSides(level, idx);
    if HasSides(path, SidesOf(|level|, idx)) { ProofSound(level, idx, h, path); }
  }

  /** Equally long leaf lists with equal roots are equal. */
  lemma {:induction false} RootInjective(a: seq<Digest>, b: seq<Digest>)
    requires |a| == |b| > 0 && Root(a) == Root(b)
    ensures a == b
    decreases |a|
  {
    if |a| > 1 {
      RootInjective(Up(a), Up(b));
      forall i | 0 <= i < |a| ensures a[i] == b[i] {
        assert Up(a)[i / 2] == Up(b)[i / 2];
      }
    }
  }

  /** Without the side letters the claimed position means nothing: leaf 1's own path verifies under index 0. */
  lemma {:induction false} IndexIsNotBound()
    ensures exists level: seq<Digest>, path, page ::
      |level| == 2 && Climb(Leaf(page), path) == Root(level) && level[0] != Leaf(page)
  {
    var level := [Leaf([0]), Leaf([1])];
    ProofComplete(level, 1);
    assert Climb(Leaf([1]), PathFor(level, 1)) == Root(level) && level[0] != Leaf([1]);
  }
}
