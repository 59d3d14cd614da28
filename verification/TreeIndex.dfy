/**
 * What the engine's maps mean: a value-level description of the block tree,
 * its ancestry, and the dense state of every block in it.
 */
module TreeIndex {
  import opened Wrappers
  import opened Int64
  import opened Aggregation
  import opened Machine
  import opened Merkle

  const U64_MAX: nat := 0xFFFF_FFFF_FFFF_FFFF
  const PROPOSER_LOOKBACK: nat := 32

  /** What the node keeps for every block it knows, forever. */
  datatype Entry = Entry(header: Header, ledger: Opaque, model: Model, work: nat)

  /** A reversible step: the aggregate applied, the values it overwrote, and the growth tail it appended. */
  datatype Record = Record(redo: Sparse, olds: Sparse, tail: seq<int64>)

  /** bodies and state are the block bodies and dense states the engine does not retain. */
  datatype Index = Index(
    blocks: map<Hash, Entry>, records: map<Hash, Record>,
    bodies: map<Hash, Block>, state: map<Hash, seq<int64>>)

  function SatAdd(a: nat, b: nat): nat { if a + b > U64_MAX then U64_MAX else a + b }

  function WorkOf(h: Header): nat { if h.work < 1 then 1 else h.work }

  // ---- ancestry ----

  ghost predicate Rooted(blocks: map<Hash, Entry>, g: Hash) {
    && g in blocks && blocks[g].header.height == 0
    && forall h {:trigger HasParent(blocks, h)} :: h in blocks && h != g ==> HasParent(blocks, h)
  }

  ghost predicate HasParent(blocks: map<Hash, Entry>, h: Hash)
    requires h in blocks
  {
    && blocks[h].header.prevHash in blocks
    && blocks[h].header.height == blocks[blocks[h].header.prevHash].header.height + 1
  }

  ghost function Ancestors(blocks: map<Hash, Entry>, g: Hash, h: Hash): set<Hash>
    requires Rooted(blocks, g) && h in blocks
    decreases blocks[h].header.height
  {
    if h == g then {g} else assert HasParent(blocks, h); {h} + Ancestors(blocks, g, blocks[h].header.prevHash)
  }

  function Jurors(blocks: map<Hash, Entry>, g: Hash, tip: Hash, n: nat): set<string>
    decreases n
  {
    if n == 0 || tip == g || tip !in blocks then {}
    else {blocks[tip].header.proposer} + Jurors(blocks, g, blocks[tip].header.prevHash, n - 1)
  }

  function Stop(path: seq<Hash>, end: Hash, k: nat): Hash {
    if k < |path| then path[k] else end
  }

  /** path leads from `from` parent by parent down to, and excluding, `end`. */
  ghost predicate IsWalk(blocks: map<Hash, Entry>, g: Hash, path: seq<Hash>, from: Hash, end: Hash) {
    && Stop(path, end, 0) == from
    && forall k :: 0 <= k < |path| ==>
         path[k] in blocks && path[k] != g && blocks[path[k]].header.prevHash == Stop(path, end, k + 1)
  }

  lemma {:induction false} WalkStep(blocks: map<Hash, Entry>, g: Hash, path: seq<Hash>, from: Hash, end: Hash, k: nat)
    requires IsWalk(blocks, g, path, from, end) && k < |path|
    ensures path[k] in blocks && path[k] != g && path[k] == Stop(path, end, k)
    ensures blocks[path[k]].header.prevHash == Stop(path, end, k + 1)
  {
  }

  lemma {:induction false} AncestorFacts(blocks: map<Hash, Entry>, g: Hash, h: Hash, a: Hash)
    requires Rooted(blocks, g) && h in blocks && a in Ancestors(blocks, g, h)
    ensures a in blocks && blocks[a].header.height <= blocks[h].header.height
    ensures blocks[a].header.height == blocks[h].header.height ==> a == h
    decreases blocks[h].header.height
  {
    if h != g && a != h {
      assert HasParent(blocks, h);
      AncestorFacts(blocks, g, blocks[h].header.prevHash, a);
    }
  }

  lemma {:induction false} SelfAndGenesis(blocks: map<Hash, Entry>, g: Hash, h: Hash)
    requires Rooted(blocks, g) && h in blocks
    ensures h in Ancestors(blocks, g, h) && g in Ancestors(blocks, g, h)
    decreases blocks[h].header.height
  {
    if h != g {
      assert HasParent(blocks, h);
      SelfAndGenesis(blocks, g, blocks[h].header.prevHash);
    }
  }

  lemma {:induction false} WalkTail(blocks: map<Hash, Entry>, g: Hash, path: seq<Hash>, from: Hash, end: Hash)
    requires IsWalk(blocks, g, path, from, end) && path != []
    ensures IsWalk(blocks, g, path[1..], blocks[from].header.prevHash, end)
  {
    forall k | 0 <= k < |path| - 1 ensures blocks[path[1..][k]].header.prevHash == Stop(path[1..], end, k + 1) {
      assert path[1..][k] == path[k + 1];
      assert blocks[path[k + 1]].header.prevHash == Stop(path, end, k + 2);
    }
    assert Stop(path[1..], end, 0) == Stop(path, end, 1);
  }

  lemma {:induction false} WalkExtend(blocks: map<Hash, Entry>, g: Hash, path: seq<Hash>, from: Hash, end: Hash)
    requires IsWalk(blocks, g, path, from, end) && end in blocks && end != g
    ensures IsWalk(blocks, g, path + [end], from, blocks[end].header.prevHash)
  {
    var longer := path + [end];
    forall k | 0 <= k < |longer|
      ensures longer[k] in blocks && longer[k] != g
      ensures blocks[longer[k]].header.prevHash == Stop(longer, blocks[end].header.prevHash, k + 1)
    {
      if k < |path| { assert blocks[path[k]].header.prevHash == Stop(path, end, k + 1); }
    }
  }

  function Set(path: seq<Hash>): set<Hash> { set h | h in path }

  /** A walk covers exactly the ancestors between its ends. */
  lemma {:induction false} WalkAncestors(blocks: map<Hash, Entry>, g: Hash, path: seq<Hash>, from: Hash, end: Hash)
    requires Rooted(blocks, g) && end in blocks && IsWalk(blocks, g, path, from, end)
    ensures from in blocks && Ancestors(blocks, g, from) == Set(path) + Ancestors(blocks, g, end)
    ensures Set(path) !! Ancestors(blocks, g, end)
    ensures blocks[from].header.height == blocks[end].header.height + |path|
    decreases |path|
  {
    if path != [] {
      var rest := path[1..];
      assert path[0] == from && HasParent(blocks, from);
      WalkTail(blocks, g, path, from, end);
      WalkAncestors(blocks, g, rest, blocks[from].header.prevHash, end);
      assert path == [from] + rest;
      assert Set(path) == {from} + Set(rest);
      if from in Ancestors(blocks, g, end) { AncestorFacts(blocks, g, end, from); }
    }
  }

  /** The blocks on exactly one of the two ancestries: those a rewind from a to b must walk. */
  ghost function Between(blocks: map<Hash, Entry>, g: Hash, a: Hash, b: Hash): set<Hash>
    requires Rooted(blocks, g) && a in blocks && b in blocks
  {
    (Ancestors(blocks, g, a) - Ancestors(blocks, g, b)) + (Ancestors(blocks, g, b) - Ancestors(blocks, g, a))
  }

  // ---- growing the tree leaves existing ancestries alone ----

  lemma {:induction false} AncestorsStable(blocks: map<Hash, Entry>, g: Hash, n: Hash, hdr: Entry, h: Hash)
    requires Rooted(blocks, g) && h in blocks && n !in blocks
    requires Rooted(blocks[n := hdr], g)
    ensures Ancestors(blocks[n := hdr], g, h) == Ancestors(blocks, g, h)
    decreases blocks[h].header.height
  {
    if h != g {
      assert HasParent(blocks, h);
      AncestorsStable(blocks, g, n, hdr, blocks[h].header.prevHash);
    }
  }

  lemma {:induction false} JurorsStable(blocks: map<Hash, Entry>, g: Hash, n: Hash, hdr: Entry, tip: Hash, k: nat)
    requires Rooted(blocks, g) && tip in blocks && n !in blocks
    ensures Jurors(blocks[n := hdr], g, tip, k) == Jurors(blocks, g, tip, k)
    decreases k
  {
    if k > 0 && tip != g {
      assert HasParent(blocks, tip);
      JurorsStable(blocks, g, n, hdr, blocks[tip].header.prevHash, k - 1);
    }
  }

  // ---- the meaning of the maps ----

  ghost predicate Domains(g: Hash, t: Index) {
    && Rooted(t.blocks, g)
    && t.state.Keys == t.blocks.Keys && t.bodies.Keys == t.blocks.Keys - {g}
    && t.records.Keys <= t.bodies.Keys
  }

  /** Every block's page table is good and its dense state has that table's length. */
  ghost predicate Shaped(mc: Machine, g: Hash, t: Index) {
    && mc.Valid() && Domains(g, t)
    && forall h :: h in t.blocks ==> mc.good(t.blocks[h].model) && |t.state[h]| == mc.Dim(t.blocks[h].model)
  }

  /** The rules accept b on top of parent entry p, with post-ledger led. */
  ghost predicate Accepted(mc: Machine, b: Block, p: Entry, jurors: set<string>, led: Opaque) {
    && mc.bodies(b, p.model)
    && mc.Inner(b, p.header.height, p.ledger, jurors, p.model) == Some(led)
  }

  ghost function JurorsOf(g: Hash, t: Index, p: Hash): set<string> { Jurors(t.blocks, g, p, PROPOSER_LOOKBACK) }

  /** The entry a valid block gets on top of parent entry p. */
  ghost function EntryOn(mc: Machine, b: Block, p: Entry, led: Opaque): Entry {
    Entry(b.header, led, mc.post(b, p.model), SatAdd(p.work, WorkOf(b.header)))
  }

  /** The exact step of b from dense state w under page table m. */
  ghost function RecordOn(mc: Machine, b: Block, m: Model, w: seq<int64>): Record {
    Record(mc.agg(b, m), Olds(w, mc.agg(b, m)), Flat(mc.tails(b, m)))
  }

  /** Block h was validated against its parent, and its maps hold the dense post-state. */
  ghost predicate Linked(mc: Machine, g: Hash, t: Index, h: Hash)
    requires Domains(g, t) && h in t.bodies
  {
    var b := t.bodies[h];
    var p := b.header.prevHash;
    && b.header.hash == h && p in t.blocks
    && t.blocks[h] == EntryOn(mc, b, t.blocks[p], t.blocks[h].ledger)
    && t.state[h] == mc.Step(t.state[p], t.blocks[p].model, b)
    && Accepted(mc, b, t.blocks[p], JurorsOf(g, t, p), t.blocks[h].ledger)
  }

  /** A retained record describes exactly the step from the parent's dense state to the block's own. */
  ghost predicate Recorded(mc: Machine, g: Hash, t: Index, h: Hash)
    requires Domains(g, t) && h in t.records
  {
    var p := t.bodies[h].header.prevHash;
    p in t.blocks && t.records[h] == RecordOn(mc, t.bodies[h], t.blocks[p].model, t.state[p])
  }

  ghost predicate Sound(mc: Machine, g: Hash, t: Index) {
    && Shaped(mc, g, t)
    && (forall h {:trigger Linked(mc, g, t, h)} :: h in t.bodies ==> Linked(mc, g, t, h))
    && (forall h {:trigger Recorded(mc, g, t, h)} :: h in t.records ==> Recorded(mc, g, t, h))
  }

  /** One recorded step, both ways. */
  lemma {:induction false} RecordedStep(mc: Machine, g: Hash, t: Index, h: Hash)
    requires Sound(mc, g, t) && h in t.records
    ensures h in t.blocks && h != g && t.blocks[h].header.prevHash in t.blocks
    ensures var p, r := t.blocks[h].header.prevHash, t.records[h];
      && t.state[h] == Apply(t.state[p], r.redo) + r.tail
      && t.state[p] == Restore(t.state[h][..|t.state[p]|], r.olds)
      && (forall i :: i in r.redo ==> i < |t.state[p]|)
      && r.olds.Keys == r.redo.Keys
  {
    assert Linked(mc, g, t, h) && Recorded(mc, g, t, h);
    var p, b := t.blocks[h].header.prevHash, t.bodies[h];
    StepLength(mc, t.state[p], t.blocks[p].model, b);
    UndoInverts(t.state[p], t.records[h].redo, t.records[h].tail);
  }

  /** The page table only grows along a chain, and stays when the tail is empty. */
  lemma {:induction false} RecordedTable(mc: Machine, g: Hash, t: Index, h: Hash)
    requires Sound(mc, g, t) && h in t.records
    ensures t.blocks[h].header.prevHash in t.blocks
    ensures var p := t.blocks[h].header.prevHash;
      && mc.spans(t.blocks[p].model) <= mc.spans(t.blocks[h].model)
      && (t.records[h].tail == [] ==> mc.spans(t.blocks[h].model) == mc.spans(t.blocks[p].model))
  {
    assert Linked(mc, g, t, h) && Recorded(mc, g, t, h);
    var p, b := t.blocks[h].header.prevHash, t.bodies[h];
    StepLength(mc, t.state[p], t.blocks[p].model, b);
  }

  /** The index after block b was validated against its parent. */
  ghost function Grow(mc: Machine, t: Index, b: Block, led: Opaque): Index
    requires b.header.prevHash in t.blocks && b.header.prevHash in t.state
  {
    var h, p := b.header.hash, b.header.prevHash;
    Index(
      t.blocks[h := EntryOn(mc, b, t.blocks[p], led)],
      t.records[h := RecordOn(mc, b, t.blocks[p].model, t.state[p])],
      t.bodies[h := b],
      t.state[h := mc.Step(t.state[p], t.blocks[p].model, b)])
  }

  /** A complete record stays complete. */
  lemma {:induction false} GrowArchive(mc: Machine, t: Index, b: Block, led: Opaque)
    requires b.header.prevHash in t.blocks && b.header.prevHash in t.state && t.records.Keys == t.bodies.Keys
    ensures Grow(mc, t, b, led).records.Keys == Grow(mc, t, b, led).bodies.Keys
  {
    var u, h := Grow(mc, t, b, led), b.header.hash;
    assert u.records.Keys == t.records.Keys + {h} && u.bodies.Keys == t.bodies.Keys + {h};
  }

  lemma {:induction false} GrowRecords(mc: Machine, t: Index, b: Block, led: Opaque)
    returns (u: Index, known: set<Hash>)
    requires b.header.prevHash in t.blocks && b.header.prevHash in t.state
    ensures u == Grow(mc, t, b, led)
    ensures known == u.records.Keys && known == t.records.Keys + {b.header.hash}
    ensures t.records.Keys == t.bodies.Keys ==> known == u.bodies.Keys
  {
    u := Grow(mc, t, b, led);
    known := u.records.Keys;
    if t.records.Keys == t.bodies.Keys { GrowArchive(mc, t, b, led); }
  }

  ghost predicate Fresh(g: Hash, t: Index, b: Block) {
    && Domains(g, t) && b.header.hash !in t.blocks && b.header.prevHash in t.blocks
    && b.header.height == t.blocks[b.header.prevHash].header.height + 1
  }

  lemma {:induction false} GrowDomains(mc: Machine, g: Hash, t: Index, b: Block, led: Opaque)
    requires Fresh(g, t, b)
    ensures Domains(g, Grow(mc, t, b, led))
  {
    var n, u := b.header.hash, Grow(mc, t, b, led);
    forall h | h in u.blocks && h != g ensures HasParent(u.blocks, h) {
      if h != n { assert HasParent(t.blocks, h); }
    }
  }

  lemma {:induction false} GrowShaped(mc: Machine, g: Hash, t: Index, b: Block, led: Opaque)
    requires Fresh(g, t, b) && Shaped(mc, g, t)
    ensures Shaped(mc, g, Grow(mc, t, b, led))
  {
    var n, p, u := b.header.hash, b.header.prevHash, Grow(mc, t, b, led);
    GrowDomains(mc, g, t, b, led);
    StepLength(mc, t.state[p], t.blocks[p].model, b);
  }

  lemma {:induction false} LinkedStable(mc: Machine, g: Hash, t: Index, b: Block, led: Opaque, h: Hash)
    requires Fresh(g, t, b) && Domains(g, Grow(mc, t, b, led)) && h in t.bodies && Linked(mc, g, t, h)
    ensures Linked(mc, g, Grow(mc, t, b, led), h)
  {
    var u := Grow(mc, t, b, led);
    JurorsStable(t.blocks, g, b.header.hash, u.blocks[b.header.hash], t.bodies[h].header.prevHash, PROPOSER_LOOKBACK);
  }

  lemma {:induction false} GrowLinked(mc: Machine, g: Hash, t: Index, b: Block, led: Opaque)
    requires Fresh(g, t, b) && Domains(g, Grow(mc, t, b, led))
    requires Accepted(mc, b, t.blocks[b.header.prevHash], JurorsOf(g, t, b.header.prevHash), led)
    ensures Linked(mc, g, Grow(mc, t, b, led), b.header.hash)
    ensures Recorded(mc, g, Grow(mc, t, b, led), b.header.hash)
  {
    var u := Grow(mc, t, b, led);
    JurorsStable(t.blocks, g, b.header.hash, u.blocks[b.header.hash], b.header.prevHash, PROPOSER_LOOKBACK);
  }

  /** Accepting a block keeps the index sound. */
  lemma {:induction false} GrowSound(mc: Machine, g: Hash, t: Index, b: Block, led: Opaque)
    requires Fresh(g, t, b) && Sound(mc, g, t)
    requires Accepted(mc, b, t.blocks[b.header.prevHash], JurorsOf(g, t, b.header.prevHash), led)
    ensures Sound(mc, g, Grow(mc, t, b, led))
  {
    var u := Grow(mc, t, b, led);
    GrowShaped(mc, g, t, b, led);
    GrowLinked(mc, g, t, b, led);
    forall h | h in u.bodies ensures Linked(mc, g, u, h) {
      if h != b.header.hash { LinkedStable(mc, g, t, b, led, h); }
    }
    forall h | h in u.records ensures Recorded(mc, g, u, h) {
      if h != b.header.hash { assert Recorded(mc, g, t, h); }
    }
  }

  /** Forgetting records keeps the index sound. */
  lemma {:induction false} PruneSound(mc: Machine, g: Hash, t: Index, kept: map<Hash, Record>)
    requires Sound(mc, g, t) && forall h :: h in kept ==> h in t.records && kept[h] == t.records[h]
    ensures Sound(mc, g, t.(records := kept))
  {
    var u := t.(records := kept);
    forall h | h in u.bodies ensures Linked(mc, g, u, h) { assert Linked(mc, g, t, h); }
    forall h | h in u.records ensures Recorded(mc, g, u, h) { assert Recorded(mc, g, t, h); }
  }

  /** v is u with some records forgotten. */
  ghost predicate Pruned(u: Index, v: Index) {
    v == u.(records := v.records) && forall h :: h in v.records ==> h in u.records && v.records[h] == u.records[h]
  }

  /** u is t with block b validated and attached, up to forgotten records. */
  ghost predicate Attached(mc: Machine, g: Hash, t: Index, b: Block, u: Index)
    requires Domains(g, t) && b.header.prevHash in t.blocks
  {
    exists led :: AttachedWith(mc, g, t, b, led, u)
  }

  ghost predicate AttachedWith(mc: Machine, g: Hash, t: Index, b: Block, led: Opaque, u: Index)
    requires Domains(g, t) && b.header.prevHash in t.blocks
  {
    && Accepted(mc, b, t.blocks[b.header.prevHash], JurorsOf(g, t, b.header.prevHash), led)
    && Pruned(Grow(mc, t, b, led), u)
  }

  lemma {:induction false} AttachedBy(mc: Machine, g: Hash, t: Index, b: Block, led: Opaque, u: Index)
    requires Domains(g, t) && b.header.prevHash in t.blocks
    requires Accepted(mc, b, t.blocks[b.header.prevHash], JurorsOf(g, t, b.header.prevHash), led)
    requires Pruned(Grow(mc, t, b, led), u)
    ensures Attached(mc, g, t, b, u)
  {
    assert AttachedWith(mc, g, t, b, led, u);
  }

  /** validate_block on the dense parent state: body rules, weight-free rules and the materialised root. */
  ghost predicate DenseAccepts(mc: Machine, g: Hash, t: Index, b: Block)
    requires Sound(mc, g, t) && b.header.prevHash in t.blocks
  {
    var p, w := t.blocks[b.header.prevHash], t.state[b.header.prevHash];
    StepLength(mc, w, p.model, b);
    Inside(mc, mc.post(b, p.model));
    && mc.bodies(b, p.model)
    && mc.Inner(b, p.header.height, p.ledger, JurorsOf(g, t, b.header.prevHash), p.model).Some?
    && Root(Leaves(mc.Step(w, p.model, b), mc.spans(mc.post(b, p.model)))) == b.header.stateRoot
  }

  // ---- dense replay from genesis ----

  /** The blocks from genesis (exclusive) to h, oldest first. */
  ghost function ChainTo(g: Hash, t: Index, h: Hash): seq<Block>
    requires Domains(g, t) && h in t.blocks
    decreases t.blocks[h].header.height
  {
    if h == g then [] else assert HasParent(t.blocks, h); ChainTo(g, t, t.blocks[h].header.prevHash) + [t.bodies[h]]
  }

  function ReplayModel(mc: Machine, m: Model, chain: seq<Block>): Model {
    if chain == [] then m
    else mc.post(chain[|chain| - 1], ReplayModel(mc, m, chain[..|chain| - 1]))
  }

  /** replay_head: every block's transition, fold and growth from the genesis weights. */
  function Replay(mc: Machine, w: seq<int64>, m: Model, chain: seq<Block>): seq<int64> {
    if chain == [] then w
    else
      var init := chain[..|chain| - 1];
      mc.Step(Replay(mc, w, m, init), ReplayModel(mc, m, init), chain[|chain| - 1])
  }

  /** The recorded state of every block is the dense replay of its ancestry. */
  lemma {:induction false} StateIsReplay(mc: Machine, g: Hash, t: Index, h: Hash)
    requires Sound(mc, g, t) && h in t.blocks
    ensures t.state[h] == Replay(mc, t.state[g], t.blocks[g].model, ChainTo(g, t, h))
    ensures t.blocks[h].model == ReplayModel(mc, t.blocks[g].model, ChainTo(g, t, h))
    decreases t.blocks[h].header.height
  {
    if h != g {
      assert Linked(mc, g, t, h) && HasParent(t.blocks, h);
      var chain := ChainTo(g, t, h);
      StateIsReplay(mc, g, t, t.blocks[h].header.prevHash);
      assert chain[..|chain| - 1] == ChainTo(g, t, t.blocks[h].header.prevHash);
    }
  }
}
