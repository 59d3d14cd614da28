/**
 * Block gossip (rig/p2p.py over BlockTree.add_block of rig/blockchain.py):
 * orphan buffering and heaviest-chain fork choice do not depend on the order,
 * or the multiplicity, in which blocks arrive.
 */
module Gossip {
  import opened Wrappers
  import opened Sums

  type Hash = nat
  /** What a block's validity is judged against: everything its ancestry determines. */
  type State = seq<nat>

  datatype GBlock = GBlock(hash: Hash, prev: Hash, work: nat, payload: seq<nat>)

  datatype Node = Node(block: GBlock, state: State, work: nat, depth: nat)

  /** validate_block, as a function of the parent's state. */
  datatype Rules = Rules(genesis: Hash, origin: State, valid: (State, GBlock) -> Option<State>) {
    function Root(): Node { Node(GBlock(genesis, 0, 0, []), origin, 0, 0) }
  }

  type Tree = map<Hash, Node>

  function WorkOf(b: GBlock): nat { if b.work < 1 then 1 else b.work }

  // ---- what a tree means ----

  /** h was validated against its parent. */
  ghost predicate Attached(rules: Rules, t: Tree, h: Hash)
    requires h in t
  {
    var n := t[h];
    && n.block.hash == h && n.block.prev in t
    && n.depth == t[n.block.prev].depth + 1 && n.work == t[n.block.prev].work + WorkOf(n.block)
    && rules.valid(t[n.block.prev].state, n.block) == Some(n.state)
  }

  ghost predicate Grounded(rules: Rules, t: Tree) {
    && rules.genesis in t && t[rules.genesis] == rules.Root()
    && forall h {:trigger Attached(rules, t, h)} :: h in t && h != rules.genesis ==> Attached(rules, t, h)
  }

  /** Every block came from the delivered set. */
  ghost predicate From(rules: Rules, t: Tree, delivered: set<GBlock>) {
    forall h :: h in t && h != rules.genesis ==> t[h].block in delivered
  }

  /** No valid delivered block is missing where its parent is present. */
  ghost predicate Complete(rules: Rules, t: Tree, delivered: set<GBlock>) {
    forall b :: b in delivered && b.prev in t && rules.valid(t[b.prev].state, b).Some? ==> b.hash in t
  }

  /** Ids identify blocks. */
  ghost predicate Collisionless(blocks: set<GBlock>) {
    forall b, c :: b in blocks && c in blocks && b.hash == c.hash ==> b == c
  }

  /** (greatest work, then smallest id). */
  ghost predicate Best(t: Tree, head: Hash) {
    head in t && forall h :: h in t ==> t[h].work < t[head].work || (t[h].work == t[head].work && head <= h)
  }

  lemma {:induction false} Included(rules: Rules, t: Tree, u: Tree, delivered: set<GBlock>, h: Hash)
    requires Grounded(rules, t) && From(rules, t, delivered) && h in t
    requires Grounded(rules, u) && From(rules, u, delivered) && Complete(rules, u, delivered)
    requires Collisionless(delivered)
    ensures h in u && u[h] == t[h]
    decreases t[h].depth
  {
    if h != rules.genesis {
      assert Attached(rules, t, h);
      Included(rules, t, u, delivered, t[h].block.prev);
      assert h in u && Attached(rules, u, h);
    }
  }

  /** The delivered set determines the tree. */
  lemma {:induction false} TreesAgree(rules: Rules, t: Tree, u: Tree, delivered: set<GBlock>)
    requires Grounded(rules, t) && From(rules, t, delivered) && Complete(rules, t, delivered)
    requires Grounded(rules, u) && From(rules, u, delivered) && Complete(rules, u, delivered)
    requires Collisionless(delivered)
    ensures t == u
  {
    forall h | h in t ensures h in u && u[h] == t[h] { Included(rules, t, u, delivered, h); }
    forall h | h in u ensures h in t { Included(rules, u, t, delivered, h); }
  }

  lemma {:induction false} BestUnique(t: Tree, a: Hash, b: Hash)
    requires Best(t, a) && Best(t, b)
    ensures a == b
  {
  }

  // ---- attaching one block ----

  function NodeOn(p: Node, b: GBlock, s: State): Node { Node(b, s, p.work + WorkOf(b), p.depth + 1) }

  lemma {:induction false} AttachGrounded(rules: Rules, t: Tree, b: GBlock, s: State)
    requires Grounded(rules, t) && b.hash !in t && b.prev in t && rules.valid(t[b.prev].state, b) == Some(s)
    ensures Grounded(rules, t[b.hash := NodeOn(t[b.prev], b, s)])
  {
    var u := t[b.hash := NodeOn(t[b.prev], b, s)];
    forall h | h in u && h != rules.genesis ensures Attached(rules, u, h) {
      if h != b.hash { assert Attached(rules, t, h); }
    }
  }

  // ---- where a delivered block can be ----

  type Orphans = map<Hash, seq<GBlock>>

  ghost predicate Placed(rules: Rules, t: Tree, orphans: Orphans, b: GBlock) {
    || b.hash in t
    || (b.prev in t && rules.valid(t[b.prev].state, b).None?)
    || (b.prev !in t && b.prev in orphans && b in orphans[b.prev])
  }

  /** Every delivered block is placed, except those still being worked on. */
  ghost predicate Settled(rules: Rules, t: Tree, orphans: Orphans, delivered: set<GBlock>, pending: set<GBlock>) {
    forall b {:trigger Placed(rules, t, orphans, b)} :: b in delivered && b !in pending ==> Placed(rules, t, orphans, b)
  }

  /** Orphans are delivered blocks, filed under their missing parent. */
  ghost predicate Filed(t: Tree, orphans: Orphans, delivered: set<GBlock>) {
    forall h :: h in orphans ==>
      h !in t && forall i :: 0 <= i < |orphans[h]| ==> orphans[h][i].prev == h && orphans[h][i] in delivered
  }

  ghost function Lengths(orphans: Orphans): map<Hash, nat> { map h | h in orphans :: |orphans[h]| }

  ghost function OrphanCount(orphans: Orphans): nat { MapSum(Lengths(orphans)) }

  lemma {:induction false} PopCount(orphans: Orphans, h: Hash)
    requires h in orphans
    ensures OrphanCount(orphans) == |orphans[h]| + OrphanCount(orphans - {h})
  {
    SumRemove(Lengths(orphans), h);
    assert Lengths(orphans) - {h} == Lengths(orphans - {h});
  }

  function Waiting(orphans: Orphans, h: Hash): seq<GBlock> { if h in orphans then orphans[h] else [] }

  function SetOf(s: seq<GBlock>): set<GBlock> { set b | b in s }

  /** After b attaches, its waiting children are the only newly unplaced blocks. */
  lemma {:induction false} AttachSettles(
    rules: Rules, t: Tree, u: Tree, orphans: Orphans, delivered: set<GBlock>, pending: set<GBlock>, b: GBlock, n: Node)
    requires Settled(rules, t, orphans, delivered, pending + {b}) && b.hash !in t && u == t[b.hash := n]
    ensures Settled(rules, u, orphans - {b.hash}, delivered, pending + SetOf(Waiting(orphans, b.hash)))
  {
    var rest := pending + SetOf(Waiting(orphans, b.hash));
    forall c | c in delivered && c !in rest ensures Placed(rules, u, orphans - {b.hash}, c) {
      if c != b { assert Placed(rules, t, orphans, c); }
    }
  }

  /** A block set aside is placed. */
  lemma {:induction false} FileSettles(
    rules: Rules, t: Tree, orphans: Orphans, delivered: set<GBlock>, pending: set<GBlock>, b: GBlock)
    requires Settled(rules, t, orphans, delivered, pending + {b}) && b.prev !in t
    ensures Settled(rules, t, orphans[b.prev := Waiting(orphans, b.prev) + [b]], delivered, pending)
  {
    var o := orphans[b.prev := Waiting(orphans, b.prev) + [b]];
    forall c | c in delivered && c !in pending ensures Placed(rules, t, o, c) {
      if c == b {
        assert o[b.prev][|o[b.prev]| - 1] == b;
      } else {
        assert Placed(rules, t, orphans, c);
        if c.hash !in t && c.prev == b.prev { assert c in orphans[c.prev]; }
      }
    }
  }

  lemma {:induction false} PendingSplit(pending: set<GBlock>, children: seq<GBlock>, i: nat)
    requires i < |children|
    ensures pending + SetOf(children[i..]) == pending + SetOf(children[i + 1..]) + {children[i]}
  {
    assert children[i..] == [children[i]] + children[i + 1..];
    assert SetOf(children[i..]) == {children[i]} + SetOf(children[i + 1..]);
  }

  /** Attached blocks stay as they are. */
  ghost predicate Grows(t: Tree, u: Tree) { forall h :: h in t ==> h in u && u[h] == t[h] }

  /** Every newly attached block is reported, and every reported block is attached and was delivered. */
  ghost predicate News(t: Tree, u: Tree, out: seq<GBlock>, delivered: set<GBlock>) {
    && (forall h :: h in u && h !in t ==> u[h].block in out)
    && (forall b :: b in out ==> b in delivered && b.hash in u)
  }

  function Hashes(blocks: seq<GBlock>): set<Hash> { set b | b in blocks :: b.hash }

  lemma {:induction false} HashesAppend(a: seq<GBlock>, b: seq<GBlock>)
    ensures Hashes(a + b) == Hashes(a) + Hashes(b)
  {
  }

  /** The blocks from genesis (exclusive) to h. */
  ghost function Lineage(rules: Rules, t: Tree, h: Hash): set<GBlock>
    requires Grounded(rules, t) && h in t
    decreases t[h].depth
  {
    if h == rules.genesis then {} else assert Attached(rules, t, h); {t[h].block} + Lineage(rules, t, t[h].block.prev)
  }

  /** A node that was delivered a block's whole lineage has the block. */
  lemma {:induction false} IncludedAlong(rules: Rules, t: Tree, u: Tree, delivered: set<GBlock>, h: Hash)
    requires Grounded(rules, t) && h in t && Lineage(rules, t, h) <= delivered
    requires Grounded(rules, u) && From(rules, u, delivered) && Complete(rules, u, delivered)
    requires Collisionless(delivered)
    ensures h in u && u[h] == t[h]
    decreases t[h].depth
  {
    if h != rules.genesis {
      assert Attached(rules, t, h);
      IncludedAlong(rules, t, u, delivered, t[h].block.prev);
      assert h in u && Attached(rules, u, h);
    }
  }

  /** Every block of a lineage is in the tree, with its own lineage inside. */
  lemma {:induction false} LineageMember(rules: Rules, t: Tree, h: Hash, b: GBlock)
    requires Grounded(rules, t) && h in t && b in Lineage(rules, t, h)
    ensures b.hash in t && t[b.hash].block == b && Lineage(rules, t, b.hash) <= Lineage(rules, t, h)
    decreases t[h].depth
  {
    assert Attached(rules, t, h);
    if b != t[h].block { LineageMember(rules, t, t[h].block.prev, b); }
  }

  /** No block twice. */
  ghost predicate Once(blocks: seq<GBlock>) {
    forall i, j :: 0 <= i < j < |blocks| ==> blocks[i].hash != blocks[j].hash
  }

  lemma {:induction false} OnceAppend(a: seq<GBlock>, b: seq<GBlock>)
    requires Once(a) && Once(b) && Hashes(a) !! Hashes(b)
    ensures Once(a + b)
  {
    var c := a + b;
    forall i, j | 0 <= i < j < |c| ensures c[i].hash != c[j].hash {
      if i < |a| <= j { assert c[i].hash in Hashes(a) && c[j].hash in Hashes(b); }
    }
  }

  /**
   * A node with tree t and seen ids went on to tree u and seen ids `after`,
   * forwarding out: the newly seen blocks, each once, among them all attached ones.
   */
  ghost predicate Reports(
    t: Tree, before: set<Hash>, u: Tree, after: set<Hash>, out: seq<GBlock>, delivered: set<GBlock>)
  {
    && Grows(t, u) && after == before + Hashes(out) && Hashes(out) !! before && Once(out)
    && News(t, u, out, delivered)
  }

  lemma {:induction false} ReportsJoin(
    t: Tree, r: set<Hash>, u: Tree, s: set<Hash>, v: Tree, q: set<Hash>,
    a: seq<GBlock>, b: seq<GBlock>, delivered: set<GBlock>)
    requires Reports(t, r, u, s, a, delivered) && Reports(u, s, v, q, b, delivered)
    ensures Reports(t, r, v, q, a + b, delivered)
  {
    HashesAppend(a, b);
    OnceAppend(a, b);
    forall h | h in v && h !in t ensures v[h].block in a + b {
      if h in u { assert u[h].block in a; } else { assert v[h].block in b; }
    }
  }

  lemma {:induction false} ReportsMore(
    t: Tree, r: set<Hash>, u: Tree, s: set<Hash>, a: seq<GBlock>, delivered: set<GBlock>, more: set<GBlock>)
    requires Reports(t, r, u, s, a, delivered) && delivered <= more
    ensures Reports(t, r, u, s, a, more)
  {
  }

  /** Each block extends the one before it, the first one the root. */
  ghost predicate Linked(chain: seq<GBlock>, root: Hash) {
    && (chain != [] ==> chain[0].prev == root)
    && forall i :: 0 < i < |chain| ==> chain[i].prev == chain[i - 1].hash
  }

  lemma {:induction false} LinkFront(chain: seq<GBlock>, b: GBlock)
    requires Linked(chain, b.hash)
    ensures Linked([b] + chain, b.prev)
  {
    var c := [b] + chain;
    forall i | 0 < i < |c| ensures c[i].prev == c[i - 1].hash {
      if i > 1 { assert chain[i - 1].prev == chain[i - 2].hash; }
    }
  }

  // ---- work along a chain ----

  /** The declared works of a chain, none counted below one. */
  ghost function Heft(chain: seq<GBlock>): nat {
    if chain == [] then 0
    else Heft(chain[..|chain| - 1]) + (if chain[|chain| - 1].work >= 1 then chain[|chain| - 1].work else 1)
  }

  /** chain leads through attached blocks from genesis (exclusive) to h. */
  ghost predicate Reaches(rules: Rules, t: Tree, chain: seq<GBlock>, h: Hash) {
    && Linked(chain, rules.genesis)
    && h == (if chain == [] then rules.genesis else chain[|chain| - 1].hash)
    && forall i :: 0 <= i < |chain| ==>
         chain[i].hash != rules.genesis && chain[i].hash in t && t[chain[i].hash].block == chain[i]
  }

  /** Whatever chain leads to a block, the block's work is the sum of the works on it. */
  lemma {:induction false} WorkIsHeft(rules: Rules, t: Tree, chain: seq<GBlock>, h: Hash)
    requires Grounded(rules, t) && Reaches(rules, t, chain, h)
    ensures h in t && t[h].work == Heft(chain)
    decreases |chain|
  {
    if chain != [] {
      assert Attached(rules, t, h);
      WorkIsHeft(rules, t, chain[..|chain| - 1], t[h].block.prev);
    }
  }

  lemma {:induction false} LinkBack(chain: seq<GBlock>, b: GBlock, root: Hash)
    requires Linked(chain, root) && b.prev == (if chain == [] then root else chain[|chain| - 1].hash)
    ensures Linked(chain + [b], root)
  {
  }

  /** Every attached block has a chain. */
  lemma {:induction false} Reached(rules: Rules, t: Tree, h: Hash) returns (chain: seq<GBlock>)
    requires Grounded(rules, t) && h in t
    ensures Reaches(rules, t, chain, h)
    decreases t[h].depth
  {
    chain := [];
    if h != rules.genesis {
      assert Attached(rules, t, h);
      var init := Reached(rules, t, t[h].block.prev);
      LinkBack(init, t[h].block, rules.genesis);
      chain := init + [t[h].block];
    }
  }

  /** No chain of attached blocks has a greater sum of works than best, or an equal one and a smaller end. */
  ghost predicate Outweighs(rules: Rules, t: Tree, best: seq<GBlock>, head: Hash) {
    forall chain, h {:trigger Reaches(rules, t, chain, h)} :: Reaches(rules, t, chain, h) ==>
      Heft(chain) < Heft(best) || (Heft(chain) == Heft(best) && head <= h)
  }

  /** Fork choice: a head is best exactly when its chain has the greatest sum of works, smallest id first. */
  lemma {:induction false} BestOutweighs(rules: Rules, t: Tree, head: Hash, best: seq<GBlock>)
    requires Grounded(rules, t) && Reaches(rules, t, best, head)
    ensures Best(t, head) <==> Outweighs(rules, t, best, head)
  {
    WorkIsHeft(rules, t, best, head);
    forall chain, h | Reaches(rules, t, chain, h) ensures h in t && t[h].work == Heft(chain) {
      WorkIsHeft(rules, t, chain, h);
    }
    forall h | h in t && Outweighs(rules, t, best, head)
      ensures t[h].work < t[head].work || (t[h].work == t[head].work && head <= h)
    {
      var chain := Reached(rules, t, h);
    }
  }

  class GossipNode {
    const rules: Rules
    var tree: Tree
    var head: Hash
    var seen: set<Hash>
    var orphans: Orphans

    /** The node after the given blocks were delivered, some of them still pending. */
    ghost predicate Holds(delivered: set<GBlock>, pending: set<GBlock>)
      reads this
    {
      && Grounded(rules, tree) && From(rules, tree, delivered) && Best(tree, head)
      && Settled(rules, tree, orphans, delivered, pending) && Filed(tree, orphans, delivered)
      && seen <= tree.Keys
    }

    constructor (rules: Rules)
      ensures this.rules == rules && Holds({}, {}) && head == rules.genesis && fresh(this)
    {
      this.rules := rules;
      tree := map[rules.genesis := rules.Root()];
      head := rules.genesis;
      seen := {};
      orphans := map[];
    }

    /** Fork choice after an attachment. */
    method Choose(h: Hash, ghost before: Tree)
      requires h in tree && before == tree - {h} && Best(before, head) && head in tree
      modifies this`head
      ensures Best(tree, head)
    {
      assert forall k :: k in tree && k != h ==> k in before && before[k] == tree[k];
      assert head in before;
      if tree[h].work > tree[head].work || (tree[h].work == tree[head].work && h < head) { head := h; }
    }

    /** add_block for a block whose parent is known and which is new: attach it if it is valid. */
    method Attach(b: GBlock, ghost delivered: set<GBlock>, ghost pending: set<GBlock>) returns (ok: bool)
      requires Holds(delivered, pending + {b}) && b in delivered && b.hash !in tree && b.prev in tree
      modifies this`tree, this`head
      ensures ok <==> rules.valid(old(tree)[b.prev].state, b).Some?
      ensures !ok ==> tree == old(tree) && head == old(head) && Holds(delivered, pending)
      ensures ok ==>
        && b.hash in tree && Grounded(rules, tree) && From(rules, tree, delivered) && Best(tree, head)
        && tree == old(tree)[b.hash := tree[b.hash]] && tree[b.hash].block == b
    {
      var s := rules.valid(tree[b.prev].state, b);
      if s.None? {
        forall c | c in delivered && c !in pending ensures Placed(rules, tree, orphans, c) {
          assert c != b ==> Placed(rules, tree, orphans, c);
        }
        return false;
      }
      AttachGrounded(rules, tree, b, s.value);
      ghost var before := tree;
      tree := tree[b.hash := NodeOn(tree[b.prev], b, s.value)];
      assert tree - {b.hash} == before;
      Choose(b.hash, before);
      return true;
    }

    /** Already in the tree: nothing to place. */
    lemma {:induction false} KnownSettles(b: GBlock, delivered: set<GBlock>, pending: set<GBlock>)
      requires Holds(delivered, pending + {b}) && b.hash in tree
      ensures Holds(delivered, pending)
    {
      forall c | c in delivered && c !in pending ensures Placed(rules, tree, orphans, c) {
        assert c != b ==> Placed(rules, tree, orphans, c);
      }
    }

    /**
     * recv_block: attach the block and then, recursively, the orphans waiting for
     * it; buffer it when its parent is unknown. Terminates because draining only
     * shrinks the buffer.
     */
    method Receive(b: GBlock, ghost delivered: set<GBlock>, ghost pending: set<GBlock>) returns (out: seq<GBlock>)
      requires Holds(delivered, pending + {b}) && b in delivered
      modifies this
      ensures Holds(delivered, pending)
      ensures Reports(old(tree), old(seen), tree, seen, out, delivered)
      ensures b.hash in tree <==> b.hash in seen
      ensures b.prev in old(tree) ==> OrphanCount(orphans) <= OrphanCount(old(orphans))
      decreases OrphanCount(orphans)
    {
      out := [];
      if b.hash in seen {
        KnownSettles(b, delivered, pending);
        return;
      }
      if b.hash !in tree && b.prev !in tree {
        SetAside(b, delivered, pending);
        return;
      }
      ghost var t, r := tree, seen;
      var ok := Land(b, delivered, pending);
      if !ok { return; }
      ghost var u, s := tree, seen;
      var more := Drain(b, delivered, pending);
      ReportsJoin(t, r, u, s, tree, seen, [b], more, delivered);
      out := [b] + more;
    }

    /** Buffer a block until its parent arrives. */
    method SetAside(b: GBlock, ghost delivered: set<GBlock>, ghost pending: set<GBlock>)
      requires Holds(delivered, pending + {b}) && b in delivered && b.prev !in tree
      modifies this`orphans
      ensures Holds(delivered, pending)
    {
      FileSettles(rules, tree, orphans, delivered, pending, b);
      orphans := orphans[b.prev := Waiting(orphans, b.prev) + [b]];
    }

    /** The node with b in its tree and b's waiting children still to be received. */
    ghost predicate Landed(b: GBlock, delivered: set<GBlock>, pending: set<GBlock>)
      reads this
    {
      && Grounded(rules, tree) && From(rules, tree, delivered) && Best(tree, head) && seen <= tree.Keys
      && b.hash in tree && Filed(tree - {b.hash}, orphans, delivered)
      && Settled(rules, tree, orphans - {b.hash}, delivered, pending + SetOf(Waiting(orphans, b.hash)))
    }

    /** Bring b into the tree, unless it is invalid. */
    method Land(b: GBlock, ghost delivered: set<GBlock>, ghost pending: set<GBlock>) returns (ok: bool)
      requires Holds(delivered, pending + {b}) && b in delivered && (b.hash in tree || b.prev in tree)
      requires b.hash !in seen
      modifies this`tree, this`head, this`seen
      ensures Reports(old(tree), old(seen), tree, seen, if ok then [b] else [], delivered)
      ensures if ok then Landed(b, delivered, pending) else Holds(delivered, pending)
      ensures ok <==> b.hash in tree
    {
      if b.hash in tree {
        KnownSettles(b, delivered, pending);
        assert orphans - {b.hash} == orphans && pending + SetOf([]) == pending;
        ok := true;
      } else {
        ok := Attach(b, delivered, pending);
        if ok { AttachSettles(rules, old(tree), tree, orphans, delivered, pending, b, tree[b.hash]); }
      }
      if ok { seen := seen + {b.hash}; }
    }

    /** Take the children waiting for b out of the buffer and receive them one by one. */
    method Drain(b: GBlock, ghost delivered: set<GBlock>, ghost pending: set<GBlock>) returns (out: seq<GBlock>)
      requires Landed(b, delivered, pending)
      modifies this
      ensures Holds(delivered, pending)
      ensures OrphanCount(orphans) <= OrphanCount(old(orphans))
      ensures Reports(old(tree), old(seen), tree, seen, out, delivered)
      decreases OrphanCount(orphans), 0
    {
      out := [];
      var children := Waiting(orphans, b.hash);
      if b.hash in orphans { PopCount(orphans, b.hash); } else { assert orphans - {b.hash} == orphans; }
      orphans := orphans - {b.hash};
      for i := 0 to |children|
        invariant Holds(delivered, pending + SetOf(children[i..]))
        invariant b.hash in tree && Reports(old(tree), old(seen), tree, seen, out, delivered)
        invariant OrphanCount(orphans) + |children| <= OrphanCount(old(orphans))
      {
        PendingSplit(pending, children, i);
        ghost var u, s := tree, seen;
        var more := Receive(children[i], delivered, pending + SetOf(children[i + 1..]));
        ReportsJoin(old(tree), old(seen), u, s, tree, seen, out, more, delivered);
        out := out + more;
      }
      assert SetOf(children[|children|..]) == {};
      assert pending + {} == pending;
    }

    /** One more block arrives. */
    method Deliver(b: GBlock, ghost delivered: set<GBlock>) returns (out: seq<GBlock>)
      requires Holds(delivered, {})
      modifies this
      ensures Holds(delivered + {b}, {}) && Reports(old(tree), old(seen), tree, seen, out, delivered + {b})
    {
      forall c | c in delivered + {b} && c !in {b} ensures Placed(rules, tree, orphans, c) {
        assert Placed(rules, tree, orphans, c);
      }
      assert {} + {b} == {b};
      out := Receive(b, delivered + {b}, {});
    }

    /** Any sequence of deliveries; what the node forwards meanwhile. */
    method DeliverAll(blocks: seq<GBlock>, ghost delivered: set<GBlock>) returns (out: seq<GBlock>)
      requires Holds(delivered, {})
      modifies this
      ensures Holds(delivered + SetOf(blocks), {})
      ensures Reports(old(tree), old(seen), tree, seen, out, delivered + SetOf(blocks))
    {
      ghost var sofar := delivered;
      out := [];
      for i := 0 to |blocks|
        invariant sofar == delivered + SetOf(blocks[..i]) && Holds(sofar, {})
        invariant Reports(old(tree), old(seen), tree, seen, out, sofar)
      {
        ghost var u, s := tree, seen;
        var more := Deliver(blocks[i], sofar);
        assert SetOf(blocks[..i + 1]) == SetOf(blocks[..i]) + {blocks[i]};
        ReportsMore(old(tree), old(seen), u, s, out, sofar, sofar + {blocks[i]});
        sofar := sofar + {blocks[i]};
        ReportsJoin(old(tree), old(seen), u, s, tree, seen, out, more, sofar);
        out := out + more;
      }
      assert blocks[..|blocks|] == blocks;
    }

    /** Settled with nothing pending, the tree is complete. */
    lemma {:induction false} IsComplete(delivered: set<GBlock>)
      requires Holds(delivered, {})
      ensures Complete(rules, tree, delivered)
    {
      forall b | b in delivered && b.prev in tree && rules.valid(tree[b.prev].state, b).Some? ensures b.hash in tree {
        assert Placed(rules, tree, orphans, b);
      }
    }

    /** chain_from_genesis: the head's lineage, oldest first. */
    method ChainFromGenesis(ghost delivered: set<GBlock>) returns (chain: seq<GBlock>)
      requires Holds(delivered, {})
      ensures SetOf(chain) == Lineage(rules, tree, head) && |chain| == tree[head].depth
      ensures Reaches(rules, tree, chain, head) && Outweighs(rules, tree, chain, head)
    {
      chain := [];
      var tip := head;
      while tip != rules.genesis
        invariant tip in tree && SetOf(chain) + Lineage(rules, tree, tip) == Lineage(rules, tree, head)
        invariant |chain| + tree[tip].depth == tree[head].depth
        invariant Linked(chain, tip) && (if chain == [] then tip else chain[|chain| - 1].hash) == head
        invariant forall i :: 0 <= i < |chain| ==>
          chain[i].hash != rules.genesis && chain[i].hash in tree && tree[chain[i].hash].block == chain[i]
        decreases tree[tip].depth
      {
        assert Attached(rules, tree, tip);
        assert SetOf([tree[tip].block] + chain) == {tree[tip].block} + SetOf(chain);
        LinkFront(chain, tree[tip].block);
        chain := [tree[tip].block] + chain;
        tip := tree[tip].block.prev;
      }
      BestOutweighs(rules, tree, head, chain);
    }
  }

  /** Two nodes delivered the same set hold the same blocks and choose the same head. */
  lemma {:induction false} Agreement(a: GossipNode, b: GossipNode, delivered: set<GBlock>)
    requires a.rules == b.rules && a.Holds(delivered, {}) && b.Holds(delivered, {}) && Collisionless(delivered)
    ensures a.tree == b.tree && a.head == b.head && Best(a.tree, a.head)
  {
    a.IsComplete(delivered);
    b.IsComplete(delivered);
    TreesAgree(a.rules, a.tree, b.tree, delivered);
    BestUnique(a.tree, a.head, b.head);
  }

  /** Any two delivery sequences of one set, with any duplication, end in the same tree and head. */
  method AnyOrder(rules: Rules, xs: seq<GBlock>, ys: seq<GBlock>) returns (a: GossipNode, b: GossipNode)
    requires SetOf(xs) == SetOf(ys) && Collisionless(SetOf(xs))
    ensures a.tree == b.tree && a.head == b.head && Best(a.tree, a.head)
  {
    a := new GossipNode(rules);
    var outA := a.DeliverAll(xs, {});
    b := new GossipNode(rules);
    var outB := b.DeliverAll(ys, {});
    assert {} + SetOf(xs) == {} + SetOf(ys) == SetOf(xs);
    Agreement(a, b, SetOf(xs));
  }

  // ---- healing a partition ----

  /** a beats b as a head, or is b. */
  ghost predicate AtLeast(n: Node, h: Hash, m: Node, g: Hash) { n.work > m.work || (n.work == m.work && h <= g) }

  lemma {:induction false} LineageFrom(rules: Rules, t: Tree, delivered: set<GBlock>, h: Hash)
    requires Grounded(rules, t) && From(rules, t, delivered) && h in t
    ensures Lineage(rules, t, h) <= delivered
    decreases t[h].depth
  {
    if h != rules.genesis {
      assert Attached(rules, t, h);
      LineageFrom(rules, t, delivered, t[h].block.prev);
    }
  }

  /** A block two trees share is the same in both. */
  lemma {:induction false} Common(rules: Rules, t: Tree, u: Tree, all: set<GBlock>, h: Hash)
    requires Grounded(rules, t) && Grounded(rules, u) && From(rules, t, all)
    requires From(rules, u, all) && Collisionless(all)
    requires h in t && h in u
    ensures t[h] == u[h]
    decreases t[h].depth
  {
    if h != rules.genesis {
      assert Attached(rules, t, h) && Attached(rules, u, h);
      Common(rules, t, u, all, t[h].block.prev);
    }
  }

  /**
   * One side of an exchange: the node had tree t and was delivered `before`; since
   * then it was delivered `got` from a peer whose tree is now w, and has tree u.
   */
  ghost predicate Side(rules: Rules, t: Tree, u: Tree, before: set<GBlock>, got: set<GBlock>, w: Tree) {
    && Grounded(rules, t) && Grounded(rules, u) && Grows(t, u) && From(rules, u, before + got)
    && Complete(rules, t, before) && Complete(rules, u, before + got)
    && forall b :: b in got ==> b.hash in w
  }

  /** Every block a node attached since then was delivered to its peer. */
  ghost predicate Told(t: Tree, u: Tree, sent: set<GBlock>) { forall h :: h in u && h !in t ==> u[h].block in sent }

  /** What one node attached during the exchange, its peer has too. */
  lemma {:induction false} NewIsShared(
    rules: Rules, ta: Tree, ua: Tree, da: set<GBlock>, ga: set<GBlock>,
    tb: Tree, ub: Tree, db: set<GBlock>, gb: set<GBlock>, h: Hash)
    requires Side(rules, ta, ua, da, ga, ub) && Side(rules, tb, ub, db, gb, ua)
    requires Told(ta, ua, gb) && Collisionless(da + db) && ga <= da + db && gb <= da + db
    requires h in ua && h !in ta
    ensures h in ub && ub[h] == ua[h]
    decreases ua[h].depth
  {
    assert Attached(rules, ua, h);
    var x := ua[h].block;
    if x.prev in ta {
      assert ua[x.prev] == ta[x.prev];
      assert x in da ==> x.hash in ta;
    } else {
      NewIsShared(rules, ta, ua, da, ga, tb, ub, db, gb, x.prev);
    }
    Common(rules, ua, ub, da + db, h);
  }

  /** Two nodes that have told each other everything new, and their heads' chains, choose the same head. */
  lemma {:induction false} HeadsMeet(
    rules: Rules, ta: Tree, ua: Tree, da: set<GBlock>, ga: set<GBlock>, ha: Hash, na: Hash,
    tb: Tree, ub: Tree, db: set<GBlock>, gb: set<GBlock>, hb: Hash, nb: Hash)
    requires Side(rules, ta, ua, da, ga, ub) && Side(rules, tb, ub, db, gb, ua)
    requires Told(ta, ua, gb) && Told(tb, ub, ga) && Collisionless(da + db) && ga <= da + db && gb <= da + db
    requires Best(ta, ha) && Best(tb, hb) && Best(ua, na) && Best(ub, nb)
    requires Lineage(rules, ta, ha) <= gb && Lineage(rules, tb, hb) <= ga
    ensures na == nb && ha in ub && hb in ua && ub[ha] == ta[ha] && ua[hb] == tb[hb]
  {
    IncludedAlong(rules, ta, ub, db + gb, ha);
    IncludedAlong(rules, tb, ua, da + ga, hb);
    if na in ta { assert na == ha; } else { NewIsShared(rules, ta, ua, da, ga, tb, ub, db, gb, na); }
    if nb in tb { assert nb == hb; } else { NewIsShared(rules, tb, ub, db, gb, ta, ua, da, ga, nb); }
    Common(rules, ua, ub, da + db, na);
    Common(rules, ua, ub, da + db, nb);
  }

  /** With no orphan buffered before, a block new to both nodes was delivered to neither. */
  lemma {:induction false} NothingReleased(rules: Rules, t: Tree, u: Tree, d: set<GBlock>, h: Hash)
    requires Grounded(rules, t) && Grounded(rules, u) && Grows(t, u) && h in u && h !in t
    requires Settled(rules, t, map[], d, {})
    ensures u[h].block !in d
  {
    assert Attached(rules, u, h);
    assert u[h].block in d ==> Placed(rules, t, map[], u[h].block);
  }

  /** All ids two nodes can know. */
  ghost function Ids(rules: Rules, all: set<GBlock>): set<Hash> { {rules.genesis} + set b | b in all :: b.hash }

  lemma {:induction false} SeenBounded(rules: Rules, t: Tree, seen: set<Hash>, delivered: set<GBlock>, all: set<GBlock>)
    requires Grounded(rules, t) && From(rules, t, delivered) && seen <= t.Keys && delivered <= all
    ensures |seen| <= |Ids(rules, all)|
  {
    forall h | h in seen ensures h in Ids(rules, all) {
      if h != rules.genesis { assert Attached(rules, t, h); }
    }
    CardinalityMonotone(seen, Ids(rules, all));
  }

  lemma {:induction false} CardinalityMonotone(a: set<Hash>, b: set<Hash>)
    requires a <= b
    ensures |a| <= |b|
  {
    assert b == a + (b - a);
  }

  lemma {:induction false} SeenGrows(before: set<Hash>, out: seq<GBlock>)
    requires Hashes(out) !! before
    ensures |before + Hashes(out)| >= |before| && (out != [] ==> |before + Hashes(out)| > |before|)
  {
    if out != [] { assert out[0].hash in Hashes(out); }
  }

  /**
   * One direction of a running exchange: the node with tree u, once t, was
   * delivered `got` and is about to be delivered `next`, all of it from its
   * peer's tree w; and what it attached is known, or on its way, to the peer.
   */
  ghost predicate Exchanges(
    t: Tree, u: Tree, w: Tree, got: set<GBlock>, next: set<GBlock>, sent: set<GBlock>, all: set<GBlock>)
  {
    && Grows(t, u) && got + next <= all && Told(t, u, sent)
    && forall b :: b in got + next ==> b.hash in w
  }

  /** A round: the node takes in `next` and forwards out, while its peer's tree grows and forwards more. */
  lemma {:induction false} Round(
    t: Tree, u: Tree, v: Tree, w: Tree, x: Tree, got: set<GBlock>, next: seq<GBlock>, sent: set<GBlock>,
    out: seq<GBlock>, more: seq<GBlock>, delivered: set<GBlock>, heard: set<GBlock>, all: set<GBlock>)
    requires Exchanges(t, u, w, got, SetOf(next), sent, all)
    requires Grows(u, v) && News(u, v, out, delivered) && Grows(w, x) && News(w, x, more, heard) && heard <= all
    ensures Exchanges(t, v, x, got + SetOf(next), SetOf(more), sent + SetOf(out), all)
  {
    forall h | h in v && h !in t ensures v[h].block in sent + SetOf(out) {
      if h in u { assert u[h].block in sent; } else { assert v[h].block in out; }
    }
  }

  lemma {:induction false} ChainIn(rules: Rules, t: Tree, h: Hash, chain: seq<GBlock>)
    requires Grounded(rules, t) && h in t && SetOf(chain) == Lineage(rules, t, h)
    ensures forall b :: b in SetOf(chain) ==> b.hash in t
  {
    forall b | b in SetOf(chain) ensures b.hash in t { LineageMember(rules, t, h, b); }
  }

  /** With no orphan buffered on either side, nothing but the two trees' own blocks is exchanged. */
  lemma {:induction false} BetterHead(
    rules: Rules, ta: Tree, ua: Tree, da: set<GBlock>, ha: Hash, tb: Tree, ub: Tree, db: set<GBlock>, hb: Hash, n: Hash)
    requires Grounded(rules, ta) && Grounded(rules, tb) && Grounded(rules, ua) && Grounded(rules, ub)
    requires Grows(ta, ua) && Grows(tb, ub) && From(rules, ua, da + db)
    requires Settled(rules, ta, map[], da, {}) && Settled(rules, tb, map[], db, {})
    requires Best(ta, ha) && Best(tb, hb) && Best(ua, n) && n in ub && ua[n] == ub[n]
    requires hb in ua && ua[hb] == tb[hb]
    ensures n == if AtLeast(ta[ha], ha, tb[hb], hb) then ha else hb
  {
    if n !in ta { NothingReleased(rules, ta, ua, da, n); }
    if n !in tb { NothingReleased(rules, tb, ub, db, n); }
    assert n == rules.genesis || ua[n].block in da + db;
  }

  /** Both directions of an exchange under way; the nodes began with trees ta and tb. */
  ghost predicate Talking(
    a: GossipNode, b: GossipNode, ta: Tree, tb: Tree, da: set<GBlock>, db: set<GBlock>,
    ga: set<GBlock>, gb: set<GBlock>, toA: set<GBlock>, toB: set<GBlock>)
    reads a, b
  {
    && a.Holds(da + ga, {}) && b.Holds(db + gb, {})
    && Exchanges(ta, a.tree, b.tree, ga, toA, gb + toB, da + db)
    && Exchanges(tb, b.tree, a.tree, gb, toB, ga + toA, da + db)
  }

  /** How much the two nodes have seen together. */
  ghost function Learned(a: GossipNode, b: GossipNode): nat
    reads a, b
  {
    |a.seen| + |b.seen|
  }

  lemma {:induction false} LearnedBounded(
    a: GossipNode, b: GossipNode, da: set<GBlock>, db: set<GBlock>, all: set<GBlock>)
    requires a.rules == b.rules && a.Holds(da, {}) && b.Holds(db, {}) && da <= all && db <= all
    ensures Learned(a, b) <= 2 * |Ids(a.rules, all)|
  {
    SeenBounded(a.rules, a.tree, a.seen, da, all);
    SeenBounded(b.rules, b.tree, b.seen, db, all);
  }

  /** Each node takes in what the other sent and forwards what is new to it. */
  method Exchange(
    a: GossipNode, b: GossipNode, toA: seq<GBlock>, toB: seq<GBlock>, ghost da: set<GBlock>, ghost db: set<GBlock>)
    returns (outA: seq<GBlock>, outB: seq<GBlock>)
    requires a != b && a.Holds(da, {}) && b.Holds(db, {})
    modifies a, b
    ensures a.Holds(da + SetOf(toA), {}) && b.Holds(db + SetOf(toB), {})
    ensures Reports(old(a.tree), old(a.seen), a.tree, a.seen, outA, da + SetOf(toA))
    ensures Reports(old(b.tree), old(b.seen), b.tree, b.seen, outB, db + SetOf(toB))
  {
    outA := a.DeliverAll(toA, da);
    outB := b.DeliverAll(toB, db);
  }

  /** Both directions after an exchange. */
  lemma {:induction false} Exchanged(
    ta: Tree, ua: Tree, va: Tree, tb: Tree, ub: Tree, vb: Tree, da: set<GBlock>, db: set<GBlock>,
    ga: set<GBlock>, gb: set<GBlock>, toA: seq<GBlock>, toB: seq<GBlock>, outA: seq<GBlock>, outB: seq<GBlock>)
    requires Exchanges(ta, ua, ub, ga, SetOf(toA), gb + SetOf(toB), da + db)
    requires Exchanges(tb, ub, ua, gb, SetOf(toB), ga + SetOf(toA), da + db)
    requires Grows(ua, va) && Grows(ub, vb)
    requires News(ua, va, outA, da + ga + SetOf(toA)) && News(ub, vb, outB, db + gb + SetOf(toB))
    ensures Exchanges(ta, va, vb, ga + SetOf(toA), SetOf(outB), gb + SetOf(toB) + SetOf(outA), da + db)
    ensures Exchanges(tb, vb, va, gb + SetOf(toB), SetOf(outA), ga + SetOf(toA) + SetOf(outB), da + db)
  {
    var all := da + db;
    Round(ta, ua, va, ub, vb, ga, toA, gb + SetOf(toB), outA, outB, da + ga + SetOf(toA), db + gb + SetOf(toB), all);
    Round(tb, ub, vb, ua, va, gb, toB, ga + SetOf(toA), outB, outA, db + gb + SetOf(toB), da + ga + SetOf(toA), all);
  }

  /** The two chains, about to be sent. */
  method Announce(a: GossipNode, b: GossipNode, ghost da: set<GBlock>, ghost db: set<GBlock>)
    returns (toA: seq<GBlock>, toB: seq<GBlock>)
    requires a.rules == b.rules && a.Holds(da, {}) && b.Holds(db, {})
    ensures Talking(a, b, a.tree, b.tree, da, db, {}, {}, SetOf(toA), SetOf(toB))
    ensures SetOf(toB) == Lineage(a.rules, a.tree, a.head) && SetOf(toA) == Lineage(b.rules, b.tree, b.head)
  {
    toB := a.ChainFromGenesis(da);
    toA := b.ChainFromGenesis(db);
    LineageFrom(a.rules, a.tree, da, a.head);
    LineageFrom(b.rules, b.tree, db, b.head);
    ChainIn(a.rules, a.tree, a.head, toB);
    ChainIn(b.rules, b.tree, b.head, toA);
    assert da + {} == da && db + {} == db;
  }

  /** When neither has anything to send, both follow one head. */
  lemma {:induction false} Quiet(
    a: GossipNode, b: GossipNode, ta: Tree, tb: Tree, da: set<GBlock>, db: set<GBlock>,
    ga: set<GBlock>, gb: set<GBlock>, ha: Hash, hb: Hash)
    requires a.rules == b.rules && Talking(a, b, ta, tb, da, db, ga, gb, {}, {}) && Collisionless(da + db)
    requires Grounded(a.rules, ta) && Grounded(a.rules, tb) && Best(ta, ha) && Best(tb, hb)
    requires Complete(a.rules, ta, da) && Complete(a.rules, tb, db)
    requires Lineage(a.rules, ta, ha) <= gb && Lineage(a.rules, tb, hb) <= ga
    ensures a.head == b.head
    ensures Settled(a.rules, ta, map[], da, {}) && Settled(a.rules, tb, map[], db, {}) ==>
      a.head == if AtLeast(ta[ha], ha, tb[hb], hb) then ha else hb
  {
    var rules := a.rules;
    a.IsComplete(da + ga);
    b.IsComplete(db + gb);
    assert ga + {} == ga && gb + {} == gb;
    HeadsMeet(rules, ta, a.tree, da, ga, ha, a.head, tb, b.tree, db, gb, hb, b.head);
    Common(rules, a.tree, b.tree, da + db, a.head);
    if Settled(rules, ta, map[], da, {}) && Settled(rules, tb, map[], db, {}) {
      BetterHead(rules, ta, a.tree, da, ha, tb, b.tree, db, hb, a.head);
    }
  }

  lemma {:induction false} Regroup(a: set<GBlock>, b: set<GBlock>, c: set<GBlock>)
    ensures a + b + c == a + (b + c)
  {
  }

  /** Exchange until neither has anything to send. */
  method Talk(
    a: GossipNode, b: GossipNode, toA0: seq<GBlock>, toB0: seq<GBlock>, ghost ta: Tree, ghost tb: Tree,
    ghost da: set<GBlock>, ghost db: set<GBlock>)
    returns (ghost ga: set<GBlock>, ghost gb: set<GBlock>)
    requires a != b && a.rules == b.rules && a.Holds(da, {}) && b.Holds(db, {})
    requires Exchanges(ta, a.tree, b.tree, {}, SetOf(toA0), {} + SetOf(toB0), da + db)
    requires Exchanges(tb, b.tree, a.tree, {}, SetOf(toB0), {} + SetOf(toA0), da + db)
    modifies a, b
    ensures a.Holds(da + ga, {}) && b.Holds(db + gb, {})
    ensures Exchanges(ta, a.tree, b.tree, ga, {}, gb + {}, da + db)
    ensures Exchanges(tb, b.tree, a.tree, gb, {}, ga + {}, da + db)
    ensures SetOf(toB0) <= gb && SetOf(toA0) <= ga
  {
    var toA, toB := toA0, toB0;
    ga, gb := {}, {};
    assert da + {} == da && db + {} == db;
    ghost var most := 2 * |Ids(a.rules, da + db)|;
    LearnedBounded(a, b, da, db, da + db);
    while toA != [] || toB != []
      invariant a.Holds(da + ga, {}) && b.Holds(db + gb, {})
      invariant Exchanges(ta, a.tree, b.tree, ga, SetOf(toA), gb + SetOf(toB), da + db)
      invariant Exchanges(tb, b.tree, a.tree, gb, SetOf(toB), ga + SetOf(toA), da + db)
      invariant SetOf(toB0) <= gb + SetOf(toB) && SetOf(toA0) <= ga + SetOf(toA) && Learned(a, b) <= most
      decreases most - Learned(a, b), |toA| + |toB|
    {
      ghost var ua, ub, sa, sb := a.tree, b.tree, a.seen, b.seen;
      var outA, outB := Exchange(a, b, toA, toB, da + ga, db + gb);
      Exchanged(ta, ua, a.tree, tb, ub, b.tree, da, db, ga, gb, toA, toB, outA, outB);
      SeenGrows(sa, outA);
      SeenGrows(sb, outB);
      Regroup(da, ga, SetOf(toA));
      Regroup(db, gb, SetOf(toB));
      ga, gb := ga + SetOf(toA), gb + SetOf(toB);
      LearnedBounded(a, b, da + ga, db + gb, da + db);
      toA, toB := outB, outA;
    }
  }

  /**
   * Two reconciled nodes: each re-announces its chain and forwards whatever is
   * new to it until neither has anything to send. Both then follow one head,
   * whatever orphans they had buffered; with none, it is the better of the two.
   */
  method Heal(a: GossipNode, b: GossipNode, ghost da: set<GBlock>, ghost db: set<GBlock>)
    requires a != b && a.rules == b.rules && a.Holds(da, {}) && b.Holds(db, {}) && Collisionless(da + db)
    modifies a, b
    ensures a.head == b.head
    ensures old(a.orphans) == map[] && old(b.orphans) == map[] ==>
      a.head == if AtLeast(old(a.tree)[old(a.head)], old(a.head), old(b.tree)[old(b.head)], old(b.head))
        then old(a.head) else old(b.head)
  {
    ghost var ta, tb, ha, hb := a.tree, b.tree, a.head, b.head;
    a.IsComplete(da);
    b.IsComplete(db);
    var toA, toB := Announce(a, b, da, db);
    ghost var ga, gb := Talk(a, b, toA, toB, ta, tb, da, db);
    Quiet(a, b, ta, tb, da, db, ga, gb, ha, hb);
  }
}
