/**
 * What a block's recorded work and its juror set are, in terms of the bodies on
 * the way from genesis to it: any list of known blocks that links genesis to
 * the block gives the same two answers.
 */
module AncestryLaw {
  import opened Machine
  import opened TreeIndex

  /** chain leads from genesis (exclusive) to h, oldest first, through known blocks. */
  ghost predicate Leads(g: Hash, t: Index, chain: seq<Block>, h: Hash) {
    && h == (if chain == [] then g else chain[|chain| - 1].header.hash)
    && forall i :: 0 <= i < |chain| ==> Follows(g, t, chain, i)
  }

  ghost predicate Follows(g: Hash, t: Index, chain: seq<Block>, i: nat)
    requires i < |chain|
  {
    var id := chain[i].header.hash;
    && id != g && id in t.bodies && t.bodies[id] == chain[i]
    && chain[i].header.prevHash == (if i == 0 then g else chain[i - 1].header.hash)
  }

  /** The declared works of a chain, none counted below one. */
  ghost function Heft(chain: seq<Block>): nat {
    if chain == [] then 0
    else Heft(chain[..|chain| - 1])
         + (if chain[|chain| - 1].header.work >= 1 then chain[|chain| - 1].header.work else 1)
  }

  ghost predicate CappedSum(work: nat, sum: nat) {
    if sum <= 0xFFFF_FFFF_FFFF_FFFF then work == sum else work == 0xFFFF_FFFF_FFFF_FFFF
  }

  lemma {:induction false} LeadsPrefix(g: Hash, t: Index, chain: seq<Block>, h: Hash)
    requires Leads(g, t, chain, h) && chain != []
    ensures Leads(g, t, chain[..|chain| - 1], chain[|chain| - 1].header.prevHash)
    ensures h in t.bodies && t.bodies[h] == chain[|chain| - 1] && h != g
  {
    var init := chain[..|chain| - 1];
    assert Follows(g, t, chain, |chain| - 1);
    forall i | 0 <= i < |init| ensures Follows(g, t, init, i) { assert Follows(g, t, chain, i); }
  }

  lemma {:induction false} LeadsSnoc(g: Hash, t: Index, chain: seq<Block>, b: Block)
    requires Leads(g, t, chain, b.header.prevHash)
    requires b.header.hash in t.bodies && t.bodies[b.header.hash] == b && b.header.hash != g
    ensures Leads(g, t, chain + [b], b.header.hash)
  {
    var longer := chain + [b];
    forall i | 0 <= i < |longer| ensures Follows(g, t, longer, i) {
      if i < |chain| { assert Follows(g, t, chain, i); }
    }
  }

  /** Every known block has such a chain, and only one: the blocks of its ancestry in order. */
  lemma {:induction false} ChainLeads(mc: Machine, g: Hash, t: Index, h: Hash)
    requires Sound(mc, g, t) && h in t.blocks
    ensures Leads(g, t, ChainTo(g, t, h), h)
    decreases t.blocks[h].header.height
  {
    if h != g {
      assert Linked(mc, g, t, h) && HasParent(t.blocks, h);
      ChainLeads(mc, g, t, t.blocks[h].header.prevHash);
      LeadsSnoc(g, t, ChainTo(g, t, t.blocks[h].header.prevHash), t.bodies[h]);
    }
  }

  lemma {:induction false} OnlyChain(mc: Machine, g: Hash, t: Index, h: Hash, chain: seq<Block>)
    requires Sound(mc, g, t) && h in t.blocks && Leads(g, t, chain, h)
    ensures chain == ChainTo(g, t, h)
    decreases |chain|
  {
    if chain != [] {
      LeadsPrefix(g, t, chain, h);
      assert Linked(mc, g, t, h) && HasParent(t.blocks, h);
      OnlyChain(mc, g, t, t.blocks[h].header.prevHash, chain[..|chain| - 1]);
      assert chain == chain[..|chain| - 1] + [chain[|chain| - 1]];
    }
  }

  /**
   * The recorded work of a block is the genesis work plus the larger of one and
   * the declared work of every block on the way to it, capped at the u64 limit.
   */
  lemma {:induction false} WorkIsHeft(mc: Machine, g: Hash, t: Index, h: Hash, chain: seq<Block>)
    requires Sound(mc, g, t) && h in t.blocks && t.blocks[g].work == 0 && Leads(g, t, chain, h)
    ensures CappedSum(t.blocks[h].work, Heft(chain))
    decreases |chain|
  {
    if chain != [] {
      LeadsPrefix(g, t, chain, h);
      assert Linked(mc, g, t, h);
      WorkIsHeft(mc, g, t, t.blocks[h].header.prevHash, chain[..|chain| - 1]);
    }
  }

  /** best has the greatest heft of all chains ending in a known block, ties going to the smaller id. */
  ghost predicate Outweighs(g: Hash, t: Index, best: seq<Block>, head: Hash) {
    forall chain, h {:trigger Leads(g, t, chain, h)} :: h in t.blocks && Leads(g, t, chain, h) ==>
      Heft(chain) < Heft(best) || (Heft(chain) == Heft(best) && head <= h)
  }

  /**
   * Fork choice: below the limit, the head of every valid node ends the chain
   * with the greatest sum of works; of equal sums, the smallest id.
   */
  lemma {:induction false} HeadOutweighs(mc: Machine, g: Hash, t: Index, head: Hash)
    requires Sound(mc, g, t) && t.blocks[g].work == 0 && head in t.blocks
    requires t.blocks[head].work < U64_MAX ==> forall h :: h in t.blocks ==>
      t.blocks[head].work > t.blocks[h].work || (t.blocks[head].work == t.blocks[h].work && head <= h)
    ensures Leads(g, t, ChainTo(g, t, head), head)
    ensures Heft(ChainTo(g, t, head)) < 0xFFFF_FFFF_FFFF_FFFF ==> Outweighs(g, t, ChainTo(g, t, head), head)
  {
    var best := ChainTo(g, t, head);
    ChainLeads(mc, g, t, head);
    WorkIsHeft(mc, g, t, head, best);
    if Heft(best) < 0xFFFF_FFFF_FFFF_FFFF {
      forall chain, h | h in t.blocks && Leads(g, t, chain, h)
        ensures Heft(chain) < Heft(best) || (Heft(chain) == Heft(best) && head <= h)
      {
        WorkIsHeft(mc, g, t, h, chain);
      }
    }
  }

  /**
   * The jurors of a tip are the proposers of the last 32 blocks of its chain, or of
   * all of them when there are fewer; the genesis proposer is never one.
   */
  lemma {:induction false} JurorsAreRecent(
    mc: Machine, g: Hash, t: Index, h: Hash, chain: seq<Block>, proposer: string)
    requires Sound(mc, g, t) && h in t.blocks && Leads(g, t, chain, h)
    ensures proposer in JurorsOf(g, t, h)
      <==> exists i :: 0 <= i < |chain| && i >= |chain| - 32 && chain[i].header.proposer == proposer
  {
    RecentWithin(mc, g, t, h, chain, proposer, 32);
  }

  lemma {:induction false} RecentWithin(
    mc: Machine, g: Hash, t: Index, h: Hash, chain: seq<Block>, proposer: string, n: nat)
    requires Sound(mc, g, t) && h in t.blocks && Leads(g, t, chain, h)
    ensures proposer in Jurors(t.blocks, g, h, n)
      <==> exists i :: 0 <= i < |chain| && i >= |chain| - n && chain[i].header.proposer == proposer
    decreases n
  {
    if n > 0 && chain != [] {
      var last, init := chain[|chain| - 1], chain[..|chain| - 1];
      LeadsPrefix(g, t, chain, h);
      assert Linked(mc, g, t, h) && HasParent(t.blocks, h);
      RecentWithin(mc, g, t, last.header.prevHash, init, proposer, n - 1);
      if i :| 0 <= i < |init| && i >= |init| - (n - 1) && init[i].header.proposer == proposer {
        assert chain[i].header.proposer == proposer;
      }
      if i :| 0 <= i < |chain| && i >= |chain| - n && chain[i].header.proposer == proposer {
        if i < |init| { assert init[i].header.proposer == proposer; }
      }
    }
  }
}
