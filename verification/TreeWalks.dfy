/** Moving along the tree by recorded steps: states, page tables and leaf caches along a walk. */
module TreeWalks {
  import opened Int64
  import opened Aggregation
  import opened Merkle
  import opened Machine
  import opened TreeIndex

  ghost predicate AllRecorded(t: Index, path: seq<Hash>) {
    forall k :: 0 <= k < |path| ==> path[k] in t.records
  }

  /** Some block on the path appended a growth tail. */
  ghost predicate Grows(t: Index, path: seq<Hash>)
    requires AllRecorded(t, path)
  {
    exists k :: 0 <= k < |path| && t.records[path[k]].tail != []
  }

  /** A coordinate no block on the walk touches has the same value at both ends. */
  lemma {:induction false} UnchangedAlong(
    mc: Machine, g: Hash, t: Index, path: seq<Hash>, from: Hash, end: Hash, i: nat)
    requires Sound(mc, g, t) && IsWalk(t.blocks, g, path, from, end) && end in t.blocks && AllRecorded(t, path)
    requires i < |t.state[end]| && forall k :: 0 <= k < |path| ==> i !in t.records[path[k]].redo
    ensures from in t.blocks && i < |t.state[from]| && t.state[from][i] == t.state[end][i]
    decreases |path|
  {
    if path != [] {
      var rest, p := path[1..], t.blocks[from].header.prevHash;
      assert path[0] == from && from in t.records;
      WalkTail(t.blocks, g, path, from, end);
      forall k | 0 <= k < |rest| ensures rest[k] in t.records && i !in t.records[rest[k]].redo {
        assert rest[k] == path[k + 1];
      }
      UnchangedAlong(mc, g, t, rest, p, end, i);
      RecordedStep(mc, g, t, from);
    }
  }

  /** Page tables only grow along a walk, and do not change without a growth tail. */
  lemma {:induction false} TableAlong(mc: Machine, g: Hash, t: Index, path: seq<Hash>, from: Hash, end: Hash)
    requires Sound(mc, g, t) && IsWalk(t.blocks, g, path, from, end) && end in t.blocks && AllRecorded(t, path)
    ensures from in t.blocks
    ensures mc.spans(t.blocks[end].model) <= mc.spans(t.blocks[from].model)
    ensures !Grows(t, path) ==> mc.spans(t.blocks[end].model) == mc.spans(t.blocks[from].model)
    decreases |path|
  {
    if path != [] {
      var rest, p := path[1..], t.blocks[from].header.prevHash;
      assert path[0] == from && from in t.records;
      WalkTail(t.blocks, g, path, from, end);
      forall k | 0 <= k < |rest| ensures rest[k] in t.records { assert rest[k] == path[k + 1]; }
      TableAlong(mc, g, t, rest, p, end);
      RecordedTable(mc, g, t, from);
      if Grows(t, rest) {
        var k :| 0 <= k < |rest| && t.records[rest[k]].tail != [];
        assert path[k + 1] == rest[k];
      }
    }
  }

  /** How a rewind from head to target goes: up to the common ancestor, then down the other branch. */
  datatype Plan = Plan(up: seq<Hash>, down: seq<Hash>, saved: seq<Digest>)

  ghost predicate PlanOk(g: Hash, t: Index, plan: Plan, head: Hash, target: Hash, common: Hash) {
    && common in t.blocks
    && IsWalk(t.blocks, g, plan.up, head, common) && IsWalk(t.blocks, g, plan.down, target, common)
    && AllRecorded(t, plan.up) && AllRecorded(t, plan.down)
  }

  /** A plan stays a plan when a new block joins the tree. */
  lemma {:induction false} PlanGrows(
    mc: Machine, g: Hash, t: Index, b: Block, led: Opaque, plan: Plan, head: Hash, target: Hash, common: Hash)
    requires Domains(g, t) && Fresh(g, t, b) && PlanOk(g, t, plan, head, target, common)
    ensures PlanOk(g, Grow(mc, t, b, led), plan, head, target, common)
  {
    WalkGrows(mc, g, t, b, led, plan.up, head, common);
    WalkGrows(mc, g, t, b, led, plan.down, target, common);
  }

  lemma {:induction false} WalkGrows(
    mc: Machine, g: Hash, t: Index, b: Block, led: Opaque, path: seq<Hash>, from: Hash, end: Hash)
    requires Domains(g, t) && Fresh(g, t, b) && IsWalk(t.blocks, g, path, from, end)
    ensures IsWalk(Grow(mc, t, b, led).blocks, g, path, from, end)
  {
    var u := Grow(mc, t, b, led);
    forall k | 0 <= k < |path|
      ensures path[k] in u.blocks && u.blocks[path[k]].header.prevHash == Stop(path, end, k + 1)
    {
      WalkStep(t.blocks, g, path, from, end, k);
    }
  }

  /** Both branches appended pages: the one case in which a rewind can keep a stale leaf. */
  ghost predicate Crosses(t: Index, plan: Plan)
    requires AllRecorded(t, plan.up) && AllRecorded(t, plan.down)
  {
    Grows(t, plan.up) && Grows(t, plan.down)
  }

  /** Some block of the path moved a coordinate of page pid. */
  ghost predicate TouchedOn(t: Index, path: seq<Hash>, spans: seq<Span>, pid: nat)
    requires AllRecorded(t, path)
  {
    exists k, i :: 0 <= k < |path| && i in t.records[path[k]].redo && PageOf(spans, i) == pid
  }

  /** A page id that a rewind must rehash: some walked block touched it, or the saved cache does not reach it. */
  ghost predicate MustRehash(t: Index, plan: Plan, spans: seq<Span>, pid: nat)
    requires AllRecorded(t, plan.up) && AllRecorded(t, plan.down)
  {
    pid >= |plan.saved| || TouchedOn(t, plan.up, spans, pid) || TouchedOn(t, plan.down, spans, pid)
  }

  /** The leaf a rewind leaves for page pid of w. */
  ghost function RehashedLeaf(t: Index, plan: Plan, spans: seq<Span>, w: seq<int64>, pid: nat): Digest
    requires AllRecorded(t, plan.up) && AllRecorded(t, plan.down) && pid < |spans| && Within(spans, |w|)
  {
    if MustRehash(t, plan, spans, pid) || plan.saved[pid] == Zero then Leaf(Slice(w, spans[pid])) else plan.saved[pid]
  }

  lemma {:induction false} KeptCoordinate(
    mc: Machine, g: Hash, t: Index, plan: Plan, head: Hash, target: Hash, common: Hash, i: nat)
    requires Sound(mc, g, t) && head in t.blocks && target in t.blocks
    requires PlanOk(g, t, plan, head, target, common) && i < |t.state[common]|
    requires forall k :: 0 <= k < |plan.up| ==> i !in t.records[plan.up[k]].redo
    requires forall k :: 0 <= k < |plan.down| ==> i !in t.records[plan.down[k]].redo
    ensures i < |t.state[head]| && i < |t.state[target]| && t.state[head][i] == t.state[target][i]
  {
    UnchangedAlong(mc, g, t, plan.up, head, common, i);
    UnchangedAlong(mc, g, t, plan.down, target, common, i);
  }

  lemma {:induction false} PageBounds(mc: Machine, g: Hash, t: Index, h: Hash, pid: nat)
    requires Sound(mc, g, t) && h in t.blocks && pid < |mc.spans(t.blocks[h].model)|
    ensures var s := mc.spans(t.blocks[h].model)[pid]; s.start <= s.end <= |t.state[h]|
  {
    Inside(mc, t.blocks[h].model);
  }

  lemma {:induction false} NotTouched(t: Index, path: seq<Hash>, spans: seq<Span>, dim: nat, pid: nat, i: nat)
    requires AllRecorded(t, path) && Fits(spans, dim) && pid < |spans| && spans[pid].Has(i)
    requires !TouchedOn(t, path, spans, pid)
    ensures forall k :: 0 <= k < |path| ==> i !in t.records[path[k]].redo
  {
    PageOfUnique(spans, dim, pid, i);
  }

  /** A page that need not be rehashed has the same bytes at head and target. */
  lemma {:induction false} KeptPage(
    mc: Machine, g: Hash, t: Index, plan: Plan, head: Hash, target: Hash, common: Hash, pid: nat)
    requires Sound(mc, g, t) && head in t.blocks && target in t.blocks
    requires PlanOk(g, t, plan, head, target, common)
    requires pid < |mc.spans(t.blocks[common].model)| && pid < |mc.spans(t.blocks[target].model)|
    requires !MustRehash(t, plan, mc.spans(t.blocks[target].model), pid)
    ensures pid < |mc.spans(t.blocks[head].model)|
    ensures var s := mc.spans(t.blocks[target].model)[pid];
      && mc.spans(t.blocks[head].model)[pid] == s
      && s.start <= s.end <= |t.state[head]| && s.end <= |t.state[target]|
      && Slice(t.state[head], s) == Slice(t.state[target], s)
  {
    TableAlong(mc, g, t, plan.up, head, common);
    TableAlong(mc, g, t, plan.down, target, common);
    PageBounds(mc, g, t, head, pid);
    PageBounds(mc, g, t, target, pid);
    PageBounds(mc, g, t, common, pid);
    var spans, dim := mc.spans(t.blocks[target].model), mc.Dim(t.blocks[target].model);
    Inside(mc, t.blocks[target].model);
    forall i | spans[pid].start <= i < spans[pid].end ensures t.state[head][i] == t.state[target][i] {
      NotTouched(t, plan.up, spans, dim, pid, i);
      NotTouched(t, plan.down, spans, dim, pid, i);
      KeptCoordinate(mc, g, t, plan, head, target, common, i);
    }
  }

  /** A page both branches appended after the fork: its id is past the common table and inside both others. */
  ghost predicate GrownTwice(mc: Machine, t: Index, head: Hash, target: Hash, common: Hash, pid: nat)
    requires head in t.blocks && target in t.blocks && common in t.blocks
  {
    |mc.spans(t.blocks[common].model)| <= pid < |mc.spans(t.blocks[head].model)|
    && pid < |mc.spans(t.blocks[target].model)|
  }

  /** The two branches gave page pid the same weights. */
  ghost predicate SamePage(mc: Machine, t: Index, head: Hash, target: Hash, pid: nat)
    requires head in t.blocks && target in t.blocks && head in t.state && target in t.state
    requires pid < |mc.spans(t.blocks[head].model)| && pid < |mc.spans(t.blocks[target].model)|
    requires Within(mc.spans(t.blocks[head].model), |t.state[head]|)
    requires Within(mc.spans(t.blocks[target].model), |t.state[target]|)
  {
    Slice(t.state[head], mc.spans(t.blocks[head].model)[pid])
    == Slice(t.state[target], mc.spans(t.blocks[target].model)[pid])
  }

  lemma {:induction false} LeafAt(mc: Machine, ls: seq<Digest>, w: seq<int64>, m: Model, pid: nat)
    requires mc.Valid() && mc.good(m) && |w| == mc.Dim(m) && CacheOk(mc, ls, w, m) && pid < |ls|
    ensures |ls| == |mc.spans(m)| && Within(mc.spans(m), |w|) && ls[pid] == Leaf(Slice(w, mc.spans(m)[pid]))
  {
    Inside(mc, m);
  }

  /**
   * Exactly when a rewound leaf is right: it was rehashed, or both branches did
   * not append that page, or they gave it the same weights.
   */
  lemma {:induction false} RewoundLeaf(
    mc: Machine, g: Hash, t: Index, plan: Plan, head: Hash, target: Hash, common: Hash, pid: nat)
    requires Sound(mc, g, t) && head in t.blocks && target in t.blocks
    requires PlanOk(g, t, plan, head, target, common)
    requires CacheOk(mc, plan.saved, t.state[head], t.blocks[head].model)
    requires Within(mc.spans(t.blocks[target].model), |t.state[target]|)
    requires Within(mc.spans(t.blocks[head].model), |t.state[head]|)
    requires pid < |mc.spans(t.blocks[target].model)|
    ensures var spans := mc.spans(t.blocks[target].model);
      RehashedLeaf(t, plan, spans, t.state[target], pid) == Leaf(Slice(t.state[target], spans[pid])) <==>
        (MustRehash(t, plan, spans, pid) || !GrownTwice(mc, t, head, target, common, pid)
         || SamePage(mc, t, head, target, pid))
  {
    var spans := mc.spans(t.blocks[target].model);
    if !MustRehash(t, plan, spans, pid) {
      LeafAt(mc, plan.saved, t.state[head], t.blocks[head].model, pid);
      if !GrownTwice(mc, t, head, target, common, pid) { KeptPage(mc, g, t, plan, head, target, common, pid); }
    }
  }

  /** Growth on both branches is necessary for a page grown twice. */
  lemma {:induction false} GrownTwiceCrosses(
    mc: Machine, g: Hash, t: Index, plan: Plan, head: Hash, target: Hash, common: Hash, pid: nat)
    requires Sound(mc, g, t) && head in t.blocks && target in t.blocks
    requires PlanOk(g, t, plan, head, target, common) && !Crosses(t, plan)
    ensures !GrownTwice(mc, t, head, target, common, pid)
  {
    TableAlong(mc, g, t, plan.up, head, common);
    TableAlong(mc, g, t, plan.down, target, common);
  }

  /** A rewind that does not cross growth on both branches leaves the cache of the target. */
  lemma {:induction false} RewoundCache(
    mc: Machine, g: Hash, t: Index, plan: Plan, head: Hash, target: Hash, common: Hash, leaves: seq<Digest>)
    requires Sound(mc, g, t) && head in t.blocks && target in t.blocks
    requires PlanOk(g, t, plan, head, target, common) && !Crosses(t, plan)
    requires CacheOk(mc, plan.saved, t.state[head], t.blocks[head].model)
    requires Within(mc.spans(t.blocks[target].model), |t.state[target]|)
    requires |leaves| == |mc.spans(t.blocks[target].model)|
    requires forall pid :: 0 <= pid < |leaves| ==>
      leaves[pid] == RehashedLeaf(t, plan, mc.spans(t.blocks[target].model), t.state[target], pid)
    ensures CacheOk(mc, leaves, t.state[target], t.blocks[target].model)
  {
    var spans := mc.spans(t.blocks[target].model);
    Inside(mc, t.blocks[head].model);
    forall pid | 0 <= pid < |leaves| ensures leaves[pid] == Leaf(Slice(t.state[target], spans[pid])) {
      GrownTwiceCrosses(mc, g, t, plan, head, target, common, pid);
      RewoundLeaf(mc, g, t, plan, head, target, common, pid);
    }
  }

  /** The walked blocks are exactly those on one ancestry and not the other. */
  lemma {:induction false} PlanCovers(
    g: Hash, t: Index, up: seq<Hash>, down: seq<Hash>, head: Hash, target: Hash, common: Hash)
    requires Rooted(t.blocks, g) && head in t.blocks && target in t.blocks && common in t.blocks
    requires IsWalk(t.blocks, g, up, head, common) && IsWalk(t.blocks, g, down, target, common)
    requires Set(down) !! Ancestors(t.blocks, g, head)
    ensures Set(up) == Ancestors(t.blocks, g, head) - Ancestors(t.blocks, g, target)
    ensures Set(down) == Ancestors(t.blocks, g, target) - Ancestors(t.blocks, g, head)
    ensures Between(t.blocks, g, head, target) == Set(up) + Set(down)
  {
    WalkAncestors(t.blocks, g, up, head, common);
    WalkAncestors(t.blocks, g, down, target, common);
  }

  /** Some block on exactly one of the two ancestries moved a coordinate of page pid. */
  ghost predicate TouchedBetween(g: Hash, t: Index, a: Hash, b: Hash, spans: seq<Span>, pid: nat)
    requires Domains(g, t) && a in t.blocks && b in t.blocks && Between(t.blocks, g, a, b) <= t.records.Keys
  {
    exists h, i :: h in Between(t.blocks, g, a, b) && i in t.records[h].redo && PageOf(spans, i) == pid
  }

  /** The leaf cache that rewinding from head to target makes of saved. */
  ghost function CacheAt(
    mc: Machine, g: Hash, t: Index, head: Hash, saved: seq<Digest>, target: Hash): (ls: seq<Digest>)
    requires Sound(mc, g, t) && head in t.blocks && target in t.blocks
    requires Between(t.blocks, g, head, target) <= t.records.Keys
    ensures |ls| == |mc.spans(t.blocks[target].model)|
  {
    Inside(mc, t.blocks[target].model);
    var spans, w := mc.spans(t.blocks[target].model), t.state[target];
    seq(|spans|, pid requires 0 <= pid < |spans| =>
      if pid >= |saved| || TouchedBetween(g, t, head, target, spans, pid) || saved[pid] == Zero
      then Leaf(Slice(w, spans[pid])) else saved[pid])
  }

  /** What the walks touch is what the blocks between touch. */
  lemma {:induction false} PlanTouches(
    g: Hash, t: Index, plan: Plan, head: Hash, target: Hash, spans: seq<Span>, pid: nat)
    requires Domains(g, t) && head in t.blocks && target in t.blocks
    requires AllRecorded(t, plan.up) && AllRecorded(t, plan.down)
    requires Between(t.blocks, g, head, target) == Set(plan.up) + Set(plan.down) <= t.records.Keys
    ensures (TouchedOn(t, plan.up, spans, pid) || TouchedOn(t, plan.down, spans, pid))
      <==> TouchedBetween(g, t, head, target, spans, pid)
  {
    if TouchedBetween(g, t, head, target, spans, pid) {
      var h, i :| h in Between(t.blocks, g, head, target) && i in t.records[h].redo && PageOf(spans, i) == pid;
      if h in Set(plan.up) {
        var k :| 0 <= k < |plan.up| && plan.up[k] == h;
      } else {
        var k :| 0 <= k < |plan.down| && plan.down[k] == h;
      }
    }
    if TouchedOn(t, plan.up, spans, pid) {
      var k, i :| 0 <= k < |plan.up| && i in t.records[plan.up[k]].redo && PageOf(spans, i) == pid;
      assert plan.up[k] in Set(plan.up);
    }
    if TouchedOn(t, plan.down, spans, pid) {
      var k, i :| 0 <= k < |plan.down| && i in t.records[plan.down[k]].redo && PageOf(spans, i) == pid;
      assert plan.down[k] in Set(plan.down);
    }
  }

  /** The rehashed leaves are the cache of the rewind. */
  lemma {:induction false} RehashedIsCacheAt(
    mc: Machine, g: Hash, t: Index, plan: Plan, head: Hash, target: Hash, leaves: seq<Digest>)
    requires Sound(mc, g, t) && head in t.blocks && target in t.blocks
    requires AllRecorded(t, plan.up) && AllRecorded(t, plan.down)
    requires Between(t.blocks, g, head, target) == Set(plan.up) + Set(plan.down) <= t.records.Keys
    requires Within(mc.spans(t.blocks[target].model), |t.state[target]|)
    requires |leaves| == |mc.spans(t.blocks[target].model)|
    requires forall pid :: 0 <= pid < |leaves| ==>
      leaves[pid] == RehashedLeaf(t, plan, mc.spans(t.blocks[target].model), t.state[target], pid)
    ensures leaves == CacheAt(mc, g, t, head, plan.saved, target)
  {
    var spans := mc.spans(t.blocks[target].model);
    forall pid | 0 <= pid < |leaves| ensures leaves[pid] == CacheAt(mc, g, t, head, plan.saved, target)[pid] {
      PlanTouches(g, t, plan, head, target, spans, pid);
    }
  }

  /** Staying put keeps a cache of page hashes. */
  lemma {:induction false} CacheAtHead(mc: Machine, g: Hash, t: Index, head: Hash, saved: seq<Digest>)
    requires Sound(mc, g, t) && head in t.blocks && |saved| == |mc.spans(t.blocks[head].model)|
    requires forall p :: 0 <= p < |saved| ==> saved[p] != Zero
    ensures Between(t.blocks, g, head, head) == {} && CacheAt(mc, g, t, head, saved, head) == saved
  {
  }

  /** Growth happened on both sides of the fork between a and b. */
  ghost predicate BothGrew(g: Hash, t: Index, a: Hash, b: Hash)
    requires Domains(g, t) && a in t.blocks && b in t.blocks && Between(t.blocks, g, a, b) <= t.records.Keys
  {
    && (exists h :: h in Ancestors(t.blocks, g, a) - Ancestors(t.blocks, g, b) && t.records[h].tail != [])
    && (exists h :: h in Ancestors(t.blocks, g, b) - Ancestors(t.blocks, g, a) && t.records[h].tail != [])
  }

  lemma {:induction false} CrossesIsBothGrew(g: Hash, t: Index, plan: Plan, a: Hash, b: Hash)
    requires Domains(g, t) && a in t.blocks && b in t.blocks && Between(t.blocks, g, a, b) <= t.records.Keys
    requires AllRecorded(t, plan.up) && AllRecorded(t, plan.down)
    requires Set(plan.up) == Ancestors(t.blocks, g, a) - Ancestors(t.blocks, g, b)
    requires Set(plan.down) == Ancestors(t.blocks, g, b) - Ancestors(t.blocks, g, a)
    ensures Crosses(t, plan) <==> BothGrew(g, t, a, b)
  {
    GrowsIsSome(t, plan.up);
    GrowsIsSome(t, plan.down);
  }

  lemma {:induction false} GrowsIsSome(t: Index, path: seq<Hash>)
    requires AllRecorded(t, path)
    ensures forall h :: h in Set(path) ==> h in t.records
    ensures Grows(t, path) <==> exists h :: h in Set(path) && t.records[h].tail != []
  {
    if Grows(t, path) {
      var k :| 0 <= k < |path| && t.records[path[k]].tail != [];
      assert path[k] in Set(path);
    }
    if h :| h in Set(path) && t.records[h].tail != [] {
      var k :| 0 <= k < |path| && path[k] == h;
    }
  }

  // ---- a plan always exists ----

  lemma {:induction false} WalkCons(blocks: map<Hash, Entry>, g: Hash, path: seq<Hash>, h: Hash, end: Hash)
    requires h in blocks && h != g && IsWalk(blocks, g, path, blocks[h].header.prevHash, end)
    ensures IsWalk(blocks, g, [h] + path, h, end)
  {
    var longer := [h] + path;
    forall k | 0 <= k < |longer|
      ensures longer[k] in blocks && longer[k] != g && blocks[longer[k]].header.prevHash == Stop(longer, end, k + 1)
    {
      if k > 0 {
        WalkStep(blocks, g, path, blocks[h].header.prevHash, end, k - 1);
        assert Stop(longer, end, k + 1) == Stop(path, end, k);
      } else {
        assert Stop(longer, end, 1) == Stop(path, end, 0);
      }
    }
  }

  lemma {:induction false} AncestorWalk(blocks: map<Hash, Entry>, g: Hash, h: Hash, a: Hash) returns (path: seq<Hash>)
    requires Rooted(blocks, g) && h in blocks && a in Ancestors(blocks, g, h)
    ensures IsWalk(blocks, g, path, h, a)
    decreases blocks[h].header.height
  {
    if h == a {
      path := [];
    } else {
      assert HasParent(blocks, h);
      path := AncestorWalk(blocks, g, blocks[h].header.prevHash, a);
      WalkCons(blocks, g, path, h, a);
      path := [h] + path;
    }
  }

  lemma {:induction false} BranchWalk(blocks: map<Hash, Entry>, g: Hash, head: Hash, target: Hash)
    returns (path: seq<Hash>, common: Hash)
    requires Rooted(blocks, g) && head in blocks && target in blocks
    ensures common in blocks && common in Ancestors(blocks, g, head)
    ensures IsWalk(blocks, g, path, target, common) && Set(path) !! Ancestors(blocks, g, head)
    decreases blocks[target].header.height
  {
    if target in Ancestors(blocks, g, head) {
      path, common := [], target;
    } else {
      SelfAndGenesis(blocks, g, head);
      assert HasParent(blocks, target);
      path, common := BranchWalk(blocks, g, head, blocks[target].header.prevHash);
      WalkCons(blocks, g, path, target, common);
      assert Set([target] + path) == {target} + Set(path);
      path := [target] + path;
    }
  }

  /** The walks of a rewind between two blocks whose difference is recorded. */
  lemma {:induction false} PlanExists(g: Hash, t: Index, head: Hash, target: Hash, saved: seq<Digest>)
    returns (plan: Plan, common: Hash)
    requires Domains(g, t) && head in t.blocks && target in t.blocks
    requires Between(t.blocks, g, head, target) <= t.records.Keys
    ensures PlanOk(g, t, plan, head, target, common) && plan.saved == saved
    ensures Between(t.blocks, g, head, target) == Set(plan.up) + Set(plan.down)
    ensures Set(plan.up) == Ancestors(t.blocks, g, head) - Ancestors(t.blocks, g, target)
    ensures Set(plan.down) == Ancestors(t.blocks, g, target) - Ancestors(t.blocks, g, head)
  {
    var down, up;
    down, common := BranchWalk(t.blocks, g, head, target);
    up := AncestorWalk(t.blocks, g, head, common);
    PlanCovers(g, t, up, down, head, target, common);
    plan := Plan(up, down, saved);
    forall k | 0 <= k < |up| ensures up[k] in t.records { assert up[k] in Set(up); }
    forall k | 0 <= k < |down| ensures down[k] in t.records { assert down[k] in Set(down); }
  }

  /** From a true cache, a rewind that does not cross growth on both branches brings the true cache of the target. */
  lemma {:induction false} CacheAtTrue(mc: Machine, g: Hash, t: Index, head: Hash, saved: seq<Digest>, target: Hash)
    requires Sound(mc, g, t) && head in t.blocks && target in t.blocks
    requires Between(t.blocks, g, head, target) <= t.records.Keys
    requires CacheOk(mc, saved, t.state[head], t.blocks[head].model) && !BothGrew(g, t, head, target)
    ensures CacheOk(mc, CacheAt(mc, g, t, head, saved, target), t.state[target], t.blocks[target].model)
  {
    var spans, ls := mc.spans(t.blocks[target].model), CacheAt(mc, g, t, head, saved, target);
    var plan, common := PlanExists(g, t, head, target, saved);
    Inside(mc, t.blocks[target].model);
    CrossesIsBothGrew(g, t, plan, head, target);
    forall pid | 0 <= pid < |ls| ensures ls[pid] == RehashedLeaf(t, plan, spans, t.state[target], pid) {
      PlanTouches(g, t, plan, head, target, spans, pid);
    }
    RewoundCache(mc, g, t, plan, head, target, common, ls);
  }
}
