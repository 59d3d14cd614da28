/**
 * What dense validation makes of a set of blocks: the tree it attaches, in any
 * parent-first order, and when the engine's tree is that one.
 */
module DenseTrees {
  import opened Int64
  import opened Merkle
  import opened Machine
  import opened TreeIndex
  import opened TreeWalks
  import opened Engine = BlockTree

  ghost predicate Collisionless(fed: set<Block>) {
    forall a, b :: a in fed && b in fed && a.header.hash == b.header.hash ==> a == b
  }

  /** Every attached block was fed. */
  ghost predicate Came(t: Index, fed: set<Block>) { forall h :: h in t.bodies ==> t.bodies[h] in fed }

  /** b is attached, or has nothing to be attached to, or is invalid. */
  ghost predicate Dealt(mc: Machine, g: Hash, t: Index, b: Block)
    requires Sound(mc, g, t)
  {
    b.header.hash in t.blocks || b.header.prevHash !in t.blocks || !DenseAccepts(mc, g, t, b)
  }

  ghost predicate Settled(mc: Machine, g: Hash, t: Index, fed: set<Block>)
    requires Sound(mc, g, t)
  {
    forall b {:trigger Dealt(mc, g, t, b)} :: b in fed ==> Dealt(mc, g, t, b)
  }

  ghost predicate AllHonest(mc: Machine, g: Hash, t: Index)
    requires Sound(mc, g, t)
  {
    forall h {:trigger Honest(mc, g, t, h)} :: h in t.blocks ==> Honest(mc, g, t, h)
  }

  /** Each fed block extends genesis or another fed block. */
  ghost predicate Parented(g: Hash, fed: set<Block>) {
    forall b :: b in fed ==> b.header.prevHash == g || exists p :: p in fed && p.header.hash == b.header.prevHash
  }

  ghost predicate Grew(t: Index, h: Hash) { h in t.records && t.records[h].tail != [] }

  /** Of two blocks that grew, one is an ancestor of the other. */
  ghost predicate Straight(g: Hash, t: Index)
    requires Domains(g, t)
  {
    forall x, y :: x in t.blocks && y in t.blocks && Grew(t, x) && Grew(t, y) ==> OneChain(g, t, x, y)
  }

  ghost predicate OneChain(g: Hash, t: Index, x: Hash, y: Hash)
    requires Domains(g, t) && x in t.blocks && y in t.blocks
  {
    x in Ancestors(t.blocks, g, y) || y in Ancestors(t.blocks, g, x)
  }

  // ---- ancestry ----

  lemma {:induction false} AncestorsNest(blocks: map<Hash, Entry>, g: Hash, h: Hash, a: Hash)
    requires Rooted(blocks, g) && h in blocks && a in Ancestors(blocks, g, h)
    ensures a in blocks && Ancestors(blocks, g, a) <= Ancestors(blocks, g, h)
    decreases blocks[h].header.height
  {
    if a != h && h != g {
      assert HasParent(blocks, h);
      AncestorsNest(blocks, g, blocks[h].header.prevHash, a);
    }
  }

  /** With every record kept, any block can be reached from any other. */
  lemma {:induction false} ArchiveReaches(g: Hash, t: Index, a: Hash, b: Hash)
    requires Domains(g, t) && t.records.Keys == t.bodies.Keys && a in t.blocks && b in t.blocks
    ensures Between(t.blocks, g, a, b) <= t.records.Keys
  {
    SelfAndGenesis(t.blocks, g, a);
    SelfAndGenesis(t.blocks, g, b);
    forall h | h in Between(t.blocks, g, a, b) ensures h in t.records {
      if h in Ancestors(t.blocks, g, a) { AncestorFacts(t.blocks, g, a, h); } else { AncestorFacts(t.blocks, g, b, h); }
    }
  }

  /** On a straight tree no rewind crosses growth on both branches. */
  lemma {:induction false} NothingCrosses(g: Hash, t: Index, a: Hash, b: Hash)
    requires Domains(g, t) && Straight(g, t) && a in t.blocks && b in t.blocks
    requires Between(t.blocks, g, a, b) <= t.records.Keys
    ensures !BothGrew(g, t, a, b)
  {
    var up, down := Ancestors(t.blocks, g, a), Ancestors(t.blocks, g, b);
    forall x, y | x in up && y in down && Grew(t, x) && Grew(t, y) ensures x in down || y in up {
      AncestorsNest(t.blocks, g, a, x);
      AncestorsNest(t.blocks, g, b, y);
      SelfAndGenesis(t.blocks, g, x);
      SelfAndGenesis(t.blocks, g, y);
      assert OneChain(g, t, x, y);
    }
    assert forall x :: x in up - down && t.records[x].tail != [] ==> Grew(t, x);
    assert forall y :: y in down - up && t.records[y].tail != [] ==> Grew(t, y);
  }

  // ---- a tree after one more block ----

  /** The verdict on a block depends on its ancestry alone. */
  lemma {:induction false} VerdictStable(mc: Machine, g: Hash, t: Index, b: Block, led: Opaque, x: Block)
    requires Fresh(g, t, b) && Sound(mc, g, t) && Sound(mc, g, Grow(mc, t, b, led)) && x.header.prevHash in t.blocks
    ensures DenseAccepts(mc, g, Grow(mc, t, b, led), x) <==> DenseAccepts(mc, g, t, x)
  {
    var u := Grow(mc, t, b, led);
    JurorsStable(t.blocks, g, b.header.hash, u.blocks[b.header.hash], x.header.prevHash, PROPOSER_LOOKBACK);
  }

  lemma {:induction false} GrowHonest(mc: Machine, g: Hash, t: Index, b: Block, led: Opaque)
    requires Fresh(g, t, b) && Sound(mc, g, t) && AllHonest(mc, g, t)
    requires Accepted(mc, b, t.blocks[b.header.prevHash], JurorsOf(g, t, b.header.prevHash), led)
    requires DenseAccepts(mc, g, t, b) && Sound(mc, g, Grow(mc, t, b, led))
    ensures AllHonest(mc, g, Grow(mc, t, b, led))
  {
    var u := Grow(mc, t, b, led);
    AttachedBy(mc, g, t, b, led, u);
    HonestIsDense(mc, g, t, b, u);
    forall h | h in u.blocks ensures Honest(mc, g, u, h) {
      if h != b.header.hash { assert Honest(mc, g, t, h); }
    }
  }

  lemma {:induction false} GrowSettled(mc: Machine, g: Hash, t: Index, b: Block, led: Opaque, fed: set<Block>)
    requires Fresh(g, t, b) && Sound(mc, g, t) && Sound(mc, g, Grow(mc, t, b, led)) && DenseAccepts(mc, g, t, b)
    requires Settled(mc, g, t, fed) && Parented(g, fed) && Collisionless(fed + {b})
    ensures Settled(mc, g, Grow(mc, t, b, led), fed + {b})
  {
    var u, n := Grow(mc, t, b, led), b.header.hash;
    assert b in fed ==> Dealt(mc, g, t, b);
    forall x | x in fed + {b} ensures Dealt(mc, g, u, x) {
      if x != b {
        assert Dealt(mc, g, t, x);
        if x.header.prevHash in t.blocks { VerdictStable(mc, g, t, b, led, x); }
        assert x.header.prevHash != n || x.header.hash in u.blocks;
      }
    }
  }

  // ---- what a straight tree guarantees ----

  /** The tree is exactly what dense validation makes of the fed blocks. */
  ghost predicate Faithful(mc: Machine, g: Hash, t: Index, fed: set<Block>) {
    Sound(mc, g, t) && Came(t, fed) && AllHonest(mc, g, t) && Settled(mc, g, t, fed)
  }

  lemma {:induction false} GrowFaithful(mc: Machine, g: Hash, t: Index, b: Block, led: Opaque, fed: set<Block>)
    requires Fresh(g, t, b) && Faithful(mc, g, t, fed) && Parented(g, fed) && Collisionless(fed + {b})
    requires Accepted(mc, b, t.blocks[b.header.prevHash], JurorsOf(g, t, b.header.prevHash), led)
    requires DenseAccepts(mc, g, t, b)
    ensures Faithful(mc, g, Grow(mc, t, b, led), fed + {b})
  {
    GrowSound(mc, g, t, b, led);
    GrowHonest(mc, g, t, b, led);
    GrowSettled(mc, g, t, b, led, fed);
  }

  lemma {:induction false} KeptFaithful(mc: Machine, g: Hash, t: Index, b: Block, fed: set<Block>)
    requires Faithful(mc, g, t, fed) && Dealt(mc, g, t, b)
    ensures Faithful(mc, g, t, fed + {b})
  {
    forall x | x in fed + {b} ensures Dealt(mc, g, t, x) { assert x != b ==> Dealt(mc, g, t, x); }
  }

  // ---- one set, one tree ----

  ghost predicate Same(t: Index, u: Index, h: Hash) {
    && h in t.blocks && h in u.blocks && t.blocks[h] == u.blocks[h]
    && h in t.state && h in u.state && t.state[h] == u.state[h]
  }

  ghost predicate SameUpTo(t: Index, u: Index, n: nat) {
    forall h {:trigger Same(t, u, h)} :: h in t.blocks && t.blocks[h].header.height <= n ==> Same(t, u, h)
  }

  lemma {:induction false} JurorsSame(g: Hash, t: Index, u: Index, tip: Hash, k: nat)
    requires Rooted(t.blocks, g) && tip in t.blocks && SameUpTo(t, u, t.blocks[tip].header.height)
    ensures Jurors(t.blocks, g, tip, k) == Jurors(u.blocks, g, tip, k)
    decreases k
  {
    assert Same(t, u, tip);
    if k > 0 && tip != g {
      assert HasParent(t.blocks, tip);
      JurorsSame(g, t, u, t.blocks[tip].header.prevHash, k - 1);
    }
  }

  /** A block of t on a common ancestry is in u too, and is the same there. */
  lemma {:induction false} BlockSame(mc: Machine, g: Hash, t: Index, u: Index, fed: set<Block>, h: Hash)
    requires Sound(mc, g, t) && Came(t, fed) && AllHonest(mc, g, t) && Faithful(mc, g, u, fed) && Collisionless(fed)
    requires h in t.blocks && h != g && t.blocks[h].header.height > 0
    requires SameUpTo(t, u, t.blocks[h].header.height - 1)
    ensures Same(t, u, h)
  {
    assert Linked(mc, g, t, h) && HasParent(t.blocks, h);
    var b := t.bodies[h];
    var p := b.header.prevHash;
    assert Same(t, u, p);
    JurorsSame(g, t, u, p, PROPOSER_LOOKBACK);
    assert Honest(mc, g, t, h);
    assert DenseAccepts(mc, g, u, b);
    assert Dealt(mc, g, u, b);
    assert Linked(mc, g, u, h);
    assert u.bodies[h] == b;
  }

  lemma {:induction false} IncludedUpTo(mc: Machine, g: Hash, t: Index, u: Index, fed: set<Block>, n: nat)
    requires Sound(mc, g, t) && Came(t, fed) && AllHonest(mc, g, t) && Faithful(mc, g, u, fed) && Collisionless(fed)
    requires Same(t, u, g)
    ensures SameUpTo(t, u, n)
    decreases n
  {
    if n > 0 { IncludedUpTo(mc, g, t, u, fed, n - 1); }
    forall h | h in t.blocks && t.blocks[h].header.height <= n ensures Same(t, u, h) {
      if h != g {
        assert HasParent(t.blocks, h);
        if t.blocks[h].header.height == n { BlockSame(mc, g, t, u, fed, h); } else { assert Same(t, u, h); }
      }
    }
  }

  /** Honest blocks of a fed set are in any tree that is faithful to the set. */
  lemma {:induction false} Included(mc: Machine, g: Hash, t: Index, u: Index, fed: set<Block>, h: Hash)
    requires Sound(mc, g, t) && Came(t, fed) && AllHonest(mc, g, t) && Faithful(mc, g, u, fed) && Collisionless(fed)
    requires Same(t, u, g) && h in t.blocks
    ensures Same(t, u, h)
  {
    IncludedUpTo(mc, g, t, u, fed, t.blocks[h].header.height);
  }

  /** The fed set determines the tree. */
  lemma {:induction false} TreesAgree(mc: Machine, g: Hash, t: Index, u: Index, fed: set<Block>)
    requires Faithful(mc, g, t, fed) && Faithful(mc, g, u, fed) && Collisionless(fed)
    requires Same(t, u, g)
    ensures t.blocks == u.blocks && t.state == u.state
  {
    forall h | h in t.blocks ensures Same(t, u, h) { Included(mc, g, t, u, fed, h); }
    forall h | h in u.blocks ensures Same(u, t, h) { Included(mc, g, u, t, fed, h); }
  }

  /** Engines with the same tree, whose work has not saturated, agree on everything else. */
  lemma {:induction false} HeadsAgree(
    mc: Machine, g: Hash, t: Index, u: Index, x: Hash, y: Hash,
    v: seq<int64>, w: seq<int64>, ls: seq<Digest>, ms: seq<Digest>)
    requires Consistent(mc, g, t, x, v, ls) && Consistent(mc, g, u, y, w, ms)
    requires AllHonest(mc, g, t) && AllHonest(mc, g, u) && t.blocks == u.blocks && t.state == u.state
    requires t.blocks[x].work < U64_MAX && t.blocks[y].work < U64_MAX
    ensures x == y && v == w && ls == ms
  {
    CacheIsHonesty(mc, g, t, x, v, ls);
    CacheIsHonesty(mc, g, u, y, w, ms);
    assert Honest(mc, g, t, x) && Honest(mc, g, u, y);
  }

  // ---- parts of a straight tree are straight ----

  lemma {:induction false} AncestorsSame(g: Hash, t: Index, u: Index, h: Hash)
    requires Domains(g, t) && Domains(g, u) && h in t.blocks && forall x :: x in t.blocks ==> Same(t, u, x)
    ensures h in u.blocks && Ancestors(t.blocks, g, h) == Ancestors(u.blocks, g, h)
    decreases t.blocks[h].header.height
  {
    assert Same(t, u, h);
    if h != g {
      assert HasParent(t.blocks, h);
      AncestorsSame(g, t, u, t.blocks[h].header.prevHash);
    }
  }

  /** A straight, complete record of what dense validation makes of all blocks. */
  ghost predicate Reference(mc: Machine, g: Hash, u: Index, all: set<Block>) {
    Faithful(mc, g, u, all) && u.records.Keys == u.bodies.Keys && Straight(g, u) && Collisionless(all)
  }

  lemma {:induction false} GrewSame(mc: Machine, g: Hash, t: Index, u: Index, all: set<Block>, h: Hash)
    requires Sound(mc, g, t) && Came(t, all) && Reference(mc, g, u, all) && Grew(t, h)
    requires forall x :: x in t.blocks ==> Same(t, u, x)
    ensures h in u.blocks && Grew(u, h)
  {
    assert Same(t, u, h) && Linked(mc, g, t, h) && Linked(mc, g, u, h);
    assert t.bodies[h] == u.bodies[h];
    assert Recorded(mc, g, t, h) && Recorded(mc, g, u, h);
    assert Same(t, u, t.bodies[h].header.prevHash);
  }

  lemma {:induction false} StraightWithin(mc: Machine, g: Hash, t: Index, u: Index, all: set<Block>)
    requires Sound(mc, g, t) && Came(t, all) && AllHonest(mc, g, t) && Reference(mc, g, u, all) && Same(t, u, g)
    ensures Straight(g, t)
  {
    forall x | x in t.blocks ensures Same(t, u, x) { Included(mc, g, t, u, all, x); }
    forall x, y | x in t.blocks && y in t.blocks && Grew(t, x) && Grew(t, y) ensures OneChain(g, t, x, y) {
      GrewSame(mc, g, t, u, all, x);
      GrewSame(mc, g, t, u, all, y);
      assert OneChain(g, u, x, y);
      AncestorsSame(g, t, u, x);
      AncestorsSame(g, t, u, y);
    }
  }

  // ---- the tree dense validation builds ----

  /** Attach b if it is new, has a parent, and dense validation accepts it. */
  ghost function Attach(mc: Machine, g: Hash, t: Index, b: Block): (u: Index)
    requires Sound(mc, g, t)
    ensures Sound(mc, g, u)
  {
    if b.header.hash !in t.blocks && b.header.prevHash in t.blocks && DenseAccepts(mc, g, t, b) then
      GrowSound(mc, g, t, b, LedgerOn(mc, g, t, b));
      Grow(mc, t, b, LedgerOn(mc, g, t, b))
    else t
  }

  ghost function LedgerOn(mc: Machine, g: Hash, t: Index, b: Block): Opaque
    requires Sound(mc, g, t) && b.header.prevHash in t.blocks && DenseAccepts(mc, g, t, b)
  {
    var p := t.blocks[b.header.prevHash];
    mc.Inner(b, p.header.height, p.ledger, JurorsOf(g, t, b.header.prevHash), p.model).value
  }

  /** One block after the other. */
  ghost function DenseTree(mc: Machine, g: Hash, t: Index, blocks: seq<Block>): (u: Index)
    requires Sound(mc, g, t)
    ensures Sound(mc, g, u)
  {
    if blocks == [] then t
    else Attach(mc, g, DenseTree(mc, g, t, blocks[..|blocks| - 1]), blocks[|blocks| - 1])
  }

  function SetOf(blocks: seq<Block>): set<Block> { set b | b in blocks }

  /** Every block comes after its parent. */
  ghost predicate ParentFirst(g: Hash, blocks: seq<Block>) {
    forall i :: 0 <= i < |blocks| ==>
      blocks[i].header.prevHash == g || exists j :: 0 <= j < i && blocks[j].header.hash == blocks[i].header.prevHash
  }

  lemma {:induction false} ParentFirstSnoc(g: Hash, blocks: seq<Block>, b: Block)
    ensures ParentFirst(g, blocks + [b]) <==>
      (ParentFirst(g, blocks)
       && (b.header.prevHash == g || exists p :: p in SetOf(blocks) && p.header.hash == b.header.prevHash))
  {
    var c, n := blocks + [b], |blocks|;
    if ParentFirst(g, c) {
      forall i | 0 <= i < n && blocks[i].header.prevHash != g
        ensures exists j :: 0 <= j < i && blocks[j].header.hash == blocks[i].header.prevHash
      {
        assert c[i] == blocks[i];
        var j :| 0 <= j < i && c[j].header.hash == c[i].header.prevHash;
        assert c[j] == blocks[j];
      }
      if b.header.prevHash != g {
        var j :| 0 <= j < n && c[j].header.hash == c[n].header.prevHash;
        assert blocks[j] in SetOf(blocks);
      }
    }
    if b.header.prevHash != g && exists p :: p in SetOf(blocks) && p.header.hash == b.header.prevHash {
      var p :| p in SetOf(blocks) && p.header.hash == b.header.prevHash;
      var j :| 0 <= j < n && blocks[j] == p;
      assert c[j] == p && c[n] == b;
    }
    if ParentFirst(g, blocks)
      && (b.header.prevHash == g || exists j :: 0 <= j < n && c[j].header.hash == c[n].header.prevHash)
    {
      forall i | 0 <= i < n && c[i].header.prevHash != g
        ensures exists j :: 0 <= j < i && c[j].header.hash == c[i].header.prevHash
      {
        var j :| 0 <= j < i && blocks[j].header.hash == blocks[i].header.prevHash;
        assert c[j] == blocks[j];
      }
    }
  }

  lemma {:induction false} PrefixParented(g: Hash, blocks: seq<Block>, n: nat)
    requires ParentFirst(g, blocks) && n <= |blocks|
    ensures Parented(g, SetOf(blocks[..n]))
  {
    forall b | b in SetOf(blocks[..n])
      ensures b.header.prevHash == g || exists p :: p in SetOf(blocks[..n]) && p.header.hash == b.header.prevHash
    {
      var i :| 0 <= i < n && blocks[..n][i] == b;
      assert blocks[i] == b;
      if b.header.prevHash != g {
        var j :| 0 <= j < i && blocks[j].header.hash == blocks[i].header.prevHash;
        assert blocks[..n][j] in SetOf(blocks[..n]);
      }
    }
  }

  /** Genesis alone, and its root is true. */
  ghost predicate Fledgling(mc: Machine, g: Hash, t: Index) {
    Sound(mc, g, t) && t.blocks.Keys == {g} && t.records.Keys == t.bodies.Keys && Honest(mc, g, t, g)
  }

  lemma {:induction false} GrowCame(mc: Machine, t: Index, b: Block, led: Opaque, fed: set<Block>)
    requires b.header.prevHash in t.blocks && b.header.prevHash in t.state
    requires Came(t, fed) && t.records.Keys == t.bodies.Keys
    ensures Came(Grow(mc, t, b, led), fed + {b})
    ensures Grow(mc, t, b, led).records.Keys == Grow(mc, t, b, led).bodies.Keys
  {
    GrowArchive(mc, t, b, led);
  }

  /** u grew from genesis alone into a complete record that is faithful to the fed blocks. */
  ghost predicate Built(mc: Machine, g: Hash, t: Index, u: Index, fed: set<Block>) {
    Faithful(mc, g, u, fed) && u.records.Keys == u.bodies.Keys && Same(t, u, g)
  }

  lemma {:induction false} BuiltStart(mc: Machine, g: Hash, t: Index, none: seq<Block>)
    requires Fledgling(mc, g, t) && none == []
    ensures DenseTree(mc, g, t, none) == t && Built(mc, g, t, t, SetOf(none))
  {
    assert SetOf(none) == {};
  }

  lemma {:induction false} AttachBuilt(mc: Machine, g: Hash, t: Index, u: Index, b: Block, fed: set<Block>)
    requires Built(mc, g, t, u, fed) && Parented(g, fed) && Collisionless(fed + {b})
    ensures Built(mc, g, t, Attach(mc, g, u, b), fed + {b})
  {
    if b.header.hash !in u.blocks && b.header.prevHash in u.blocks && DenseAccepts(mc, g, u, b) {
      GrowFaithful(mc, g, u, b, LedgerOn(mc, g, u, b), fed);
      GrowCame(mc, u, b, LedgerOn(mc, g, u, b), fed);
    } else {
      KeptFaithful(mc, g, u, b, fed);
    }
  }

  lemma {:induction false} Snoc(blocks: seq<Block>, n: nat)
    requires n < |blocks|
    ensures SetOf(blocks[..n + 1]) == SetOf(blocks[..n]) + {blocks[n]}
    ensures SetOf(blocks[..n + 1]) <= SetOf(blocks)
  {
  }

  /** From genesis, the dense tree is faithful to the blocks it was built from. */
  lemma {:induction false} DenseFaithful(mc: Machine, g: Hash, t: Index, blocks: seq<Block>)
    requires Fledgling(mc, g, t) && ParentFirst(g, blocks) && Collisionless(SetOf(blocks))
    ensures Built(mc, g, t, DenseTree(mc, g, t, blocks), SetOf(blocks))
  {
    assert blocks[..|blocks|] == blocks;
    DensePrefix(mc, g, t, blocks, |blocks|, DenseTree(mc, g, t, blocks));
  }

  lemma {:induction false} DensePrefix(mc: Machine, g: Hash, t: Index, blocks: seq<Block>, n: nat, u: Index)
    requires Fledgling(mc, g, t) && ParentFirst(g, blocks) && Collisionless(SetOf(blocks)) && n <= |blocks|
    requires u == DenseTree(mc, g, t, blocks[..n])
    ensures Built(mc, g, t, u, SetOf(blocks[..n]))
  {
    if n == 0 {
      BuiltStart(mc, g, t, blocks[..n]);
    } else {
      var v := DenseTree(mc, g, t, blocks[..n - 1]);
      DensePrefix(mc, g, t, blocks, n - 1, v);
      DenseNext(mc, g, t, blocks, n - 1);
      BuiltNext(mc, g, t, v, blocks, n - 1, u);
    }
  }

  lemma {:induction false} BuiltNext(mc: Machine, g: Hash, t: Index, u: Index, blocks: seq<Block>, n: nat, v: Index)
    requires ParentFirst(g, blocks) && Collisionless(SetOf(blocks)) && n < |blocks|
    requires Built(mc, g, t, u, SetOf(blocks[..n])) && v == Attach(mc, g, u, blocks[n])
    ensures Built(mc, g, t, v, SetOf(blocks[..n + 1]))
  {
    PrefixParented(g, blocks, n);
    Snoc(blocks, n);
    AttachBuilt(mc, g, t, u, blocks[n], SetOf(blocks[..n]));
  }

  lemma {:induction false} DenseNext(mc: Machine, g: Hash, t: Index, blocks: seq<Block>, n: nat)
    requires Sound(mc, g, t) && n < |blocks|
    ensures DenseTree(mc, g, t, blocks[..n + 1]) == Attach(mc, g, DenseTree(mc, g, t, blocks[..n]), blocks[n])
  {
    assert blocks[..n + 1][..n] == blocks[..n];
  }

  /** A tree of fed blocks is faithful to them if and only if it is the dense tree. */
  lemma {:induction false} FaithfulIsDense(mc: Machine, g: Hash, t: Index, u: Index, blocks: seq<Block>)
    requires Fledgling(mc, g, t) && ParentFirst(g, blocks) && Collisionless(SetOf(blocks))
    requires Sound(mc, g, u) && Came(u, SetOf(blocks)) && Same(t, u, g)
    ensures var d := DenseTree(mc, g, t, blocks);
      Faithful(mc, g, u, SetOf(blocks)) <==> u.blocks == d.blocks && u.state == d.state
  {
    var d, fed := DenseTree(mc, g, t, blocks), SetOf(blocks);
    DenseFaithful(mc, g, t, blocks);
    if Faithful(mc, g, u, fed) { TreesAgree(mc, g, u, d, fed); }
    if u.blocks == d.blocks && u.state == d.state { SameFaithful(mc, g, d, u, fed); }
  }

  lemma {:induction false} SameFaithful(mc: Machine, g: Hash, d: Index, u: Index, fed: set<Block>)
    requires Faithful(mc, g, d, fed) && Sound(mc, g, u) && Came(u, fed)
    requires u.blocks == d.blocks && u.state == d.state
    ensures Faithful(mc, g, u, fed)
  {
    forall h | h in u.blocks ensures Honest(mc, g, u, h) { assert Honest(mc, g, d, h); }
    forall b | b in fed ensures Dealt(mc, g, u, b) { assert Dealt(mc, g, d, b); }
  }
}
