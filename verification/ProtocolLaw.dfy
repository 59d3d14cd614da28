/** The protocol's rules on a block's own lists: its bodies, what it feeds the fold, what it appends. */
module ProtocolLaw {
  import opened Int64
  import opened Aggregation
  import opened Machine
  import opened ModelState
  import opened PageTableLaw
  import opened Sestrian
  import opened WindowLaw
  import opened TreeIndex
  import opened AncestryLaw

  // ---- the body rules ----

  /** How many of the first n values are not zero. */
  ghost function NonzeroCount(v: seq<int64>, n: nat): nat
    requires n <= |v|
  {
    if n == 0 then 0 else NonzeroCount(v, n - 1) + if v[n - 1] != 0 then 1 else 0
  }

  /** The parameters of the pages, one page after the other. */
  ghost function Extent(m: Model, pages: seq<nat>): int
    requires forall k :: 0 <= k < |pages| ==> pages[k] < |m.pages|
  {
    if pages == [] then 0
    else Extent(m, pages[..|pages| - 1]) + m.pages[pages[|pages| - 1]].end - m.pages[pages[|pages| - 1]].start
  }

  /** Some claimed page holds coordinate i. */
  ghost predicate Covered(m: Model, pages: seq<nat>, i: nat) {
    exists k :: 0 <= k < |pages| && pages[k] < |m.pages| && m.pages[pages[k]].start <= i < m.pages[pages[k]].end
  }

  /**
   * The rules on a dense body: as long as the model, some pages claimed, each once
   * and in order and active, nothing outside them, and at least as many nonzero
   * values as the quota asks for (a hundredth of the claimed parameters at quota
   * 10000, rounded down) and at most the envelope.
   */
  ghost predicate Admissible(m: Model, maxNnz: nat, pages: seq<nat>, v: seq<int64>) {
    && m.pages != [] && |v| == m.pages[|m.pages| - 1].end
    && pages != [] && (forall i, j :: 0 <= i < j < |pages| ==> pages[i] < pages[j])
    && (forall k :: 0 <= k < |pages| ==> pages[k] < |m.pages| && m.pages[pages[k]].active)
    && (forall i :: 0 <= i < |v| && v[i] != 0 ==> Covered(m, pages, i))
    && Extent(m, pages) * m.quota < NonzeroCount(v, |v|) * 1_000_000 + 1_000_000
    && NonzeroCount(v, |v|) <= maxNnz
  }

  /** No coordinate past the body's length. */
  ghost predicate InLength(body: Body) {
    match body
    case Dense(_) => true
    case Coords(n, c) => forall i :: i in c && c[i] != 0 ==> i < n
  }

  ghost function NonzeroBelow(v: seq<int64>, n: nat): set<nat>
    requires n <= |v|
  {
    set i: nat | i < n && v[i] != 0
  }

  lemma {:induction false} CountIs(v: seq<int64>, n: nat)
    requires n <= |v|
    ensures |NonzeroBelow(v, n)| == NonzeroCount(v, n)
  {
    if n > 0 {
      CountIs(v, n - 1);
      if v[n - 1] != 0 {
        assert NonzeroBelow(v, n) == NonzeroBelow(v, n - 1) + {n - 1};
      } else {
        assert NonzeroBelow(v, n) == NonzeroBelow(v, n - 1);
      }
    }
  }

  lemma {:induction false} NonzeroIs(body: Body)
    requires InLength(body)
    ensures Nonzero(body) == NonzeroBelow(body.Values(), body.Len())
    ensures |Nonzero(body)| == NonzeroCount(body.Values(), body.Len())
  {
    CountIs(body.Values(), body.Len());
    assert Nonzero(body) == NonzeroBelow(body.Values(), body.Len());
  }

  lemma {:induction false} SpanIs(p: Params, m: Model, pages: seq<nat>)
    requires p.Valid() && Table(p, m) && forall k :: 0 <= k < |pages| ==> pages[k] < |m.pages|
    ensures ClaimedParams(m, pages) == Extent(m, pages)
  {
    if pages != [] {
      SpanIs(p, m, pages[..|pages| - 1]);
      Tiles(p, m);
      assert m.Spans()[pages[|pages| - 1]].start <= m.Spans()[pages[|pages| - 1]].end;
    }
  }

  lemma {:induction false} QuotaIs(claimed: nat, quota: nat, count: nat)
    ensures claimed * quota / 1_000_000 <= count <==> claimed * quota < count * 1_000_000 + 1_000_000
  {
  }

  /** Past the table's end there is no page. */
  lemma {:induction false} CoveredInside(p: Params, m: Model, pages: seq<nat>, i: nat)
    requires p.Valid() && Table(p, m) && Covered(m, pages, i)
    ensures i < m.Dim()
  {
    var k :| 0 <= k < |pages| && pages[k] < |m.pages| && m.pages[pages[k]].start <= i < m.pages[pages[k]].end;
    Tiles(p, m);
    assert m.Spans()[pages[k]].end <= m.Dim();
  }

  /** A body passes exactly when its dense image does and no coordinate lies past its length. */
  lemma {:induction false} BodyIs(p: Params, m: Model, maxNnz: nat, tx: Tx)
    requires p.Valid() && Table(p, m)
    ensures BodyOk(m, maxNnz, tx) <==> InLength(tx.body) && Admissible(m, maxNnz, tx.pages, tx.body.Values())
  {
    if tx.body.Len() == m.Dim() && forall k :: 0 <= k < |tx.pages| ==> m.IsActive(tx.pages[k]) {
      if BodyOk(m, maxNnz, tx) { OutsideNothing(p, m, maxNnz, tx); }
      if InLength(tx.body) {
        NonzeroIs(tx.body);
        SpanIs(p, m, tx.pages);
        QuotaIs(ClaimedParams(m, tx.pages), m.quota, |Nonzero(tx.body)|);
        CoveredIsClaimed(m, tx);
      }
    }
  }

  lemma {:induction false} OutsideNothing(p: Params, m: Model, maxNnz: nat, tx: Tx)
    requires p.Valid() && Table(p, m) && BodyOk(m, maxNnz, tx)
    ensures InLength(tx.body)
  {
    if tx.body.Coords? {
      forall i | i in tx.body.nonzero && tx.body.nonzero[i] != 0 ensures i < tx.body.n {
        assert i in Nonzero(tx.body);
        assert Covered(m, tx.pages, i);
        CoveredInside(p, m, tx.pages, i);
      }
    }
  }

  lemma {:induction false} CoveredIsClaimed(m: Model, tx: Tx)
    requires InLength(tx.body) && Nonzero(tx.body) == NonzeroBelow(tx.body.Values(), tx.body.Len())
    ensures (forall i :: i in Nonzero(tx.body) ==> Claimed(m, tx.pages, i))
      <==> forall i :: 0 <= i < tx.body.Len() && tx.body.Values()[i] != 0 ==> Covered(m, tx.pages, i)
  {
    forall i: nat ensures Claimed(m, tx.pages, i) <==> Covered(m, tx.pages, i) {
    }
    forall i: nat ensures i in Nonzero(tx.body) <==> i < tx.body.Len() && tx.body.Values()[i] != 0 {
    }
  }

  // ---- what a block feeds the fold ----

  /** Each transaction has at most one score. */
  ghost predicate OneScoreEach(scores: seq<Score>) {
    forall i, j :: 0 <= i < j < |scores| ==> scores[i].txid != scores[j].txid
  }

  /** No positive score was committed for the id. */
  ghost predicate Unscored(scores: seq<Score>, id: nat) {
    forall k :: 0 <= k < |scores| && scores[k].txid == id ==> scores[k].value == 0
  }

  ghost function UnscoredCount(txs: seq<Tx>, scores: seq<Score>): nat {
    if txs == [] then 0
    else UnscoredCount(txs[..|txs| - 1], scores) + if Unscored(scores, txs[|txs| - 1].id) then 1 else 0
  }

  ghost function SumOfScores(scores: seq<Score>): nat {
    if scores == [] then 0 else SumOfScores(scores[..|scores| - 1]) + scores[|scores| - 1].value
  }

  lemma {:induction false} ScoreIs(scores: seq<Score>, id: nat)
    requires OneScoreEach(scores)
    ensures ScoreOf(scores, id) == 0 <==> Unscored(scores, id)
  {
    if scores != [] {
      var rest := scores[1..];
      ScoreIs(rest, id);
      if scores[0].txid == id {
        forall k | 0 <= k < |scores| && scores[k].txid == id ensures k == 0 {
        }
      } else {
        forall k | 0 <= k < |scores| && scores[k].txid == id ensures k > 0 && rest[k - 1] == scores[k] {
        }
        forall k | 0 <= k < |rest| && rest[k].txid == id ensures scores[k + 1] == rest[k] {
        }
      }
    }
  }

  lemma {:induction false} ZeroFront(t: Tx, txs: seq<Tx>, scores: seq<Score>)
    ensures UnscoredCount([t] + txs, scores) == (if Unscored(scores, t.id) then 1 else 0) + UnscoredCount(txs, scores)
    decreases |txs|
  {
    var all := [t] + txs;
    if txs == [] {
      assert all[..0] == [];
    } else {
      assert all[..|all| - 1] == [t] + txs[..|txs| - 1];
      ZeroFront(t, txs[..|txs| - 1], scores);
    }
  }

  lemma {:induction false} ZeroScoredIs(txs: seq<Tx>, scores: seq<Score>)
    requires OneScoreEach(scores)
    ensures ZeroScored(txs, scores) == UnscoredCount(txs, scores)
  {
    if txs != [] {
      ZeroScoredIs(txs[1..], scores);
      ScoreIs(scores, txs[0].id);
      ZeroFront(txs[0], txs[1..], scores);
      assert txs == [txs[0]] + txs[1..];
    }
  }

  lemma {:induction false} SumFront(s: Score, scores: seq<Score>)
    ensures SumOfScores([s] + scores) == s.value + SumOfScores(scores)
    decreases |scores|
  {
    var all := [s] + scores;
    if scores == [] {
      assert all[..0] == [];
    } else {
      assert all[..|all| - 1] == [s] + scores[..|scores| - 1];
      SumFront(s, scores[..|scores| - 1]);
    }
  }

  lemma {:induction false} ScoreSumIs(scores: seq<Score>)
    ensures ScoreSum(scores) == SumOfScores(scores)
  {
    if scores != [] {
      ScoreSumIs(scores[1..]);
      SumFront(scores[0], scores[1..]);
      assert scores == [scores[0]] + scores[1..];
    }
  }

  /** The fold sees a block's transactions, those nobody scored, the sum of its scores, its parent and its proposer. */
  lemma {:induction false} InputIs(b: Block)
    requires OneScoreEach(b.scores)
    ensures InputOf(b) == Input(
      |b.txs|, UnscoredCount(b.txs, b.scores), b.header.prevHash, SumOfScores(b.scores), b.header.proposer)
  {
    ZeroScoredIs(b.txs, b.scores);
    ScoreSumIs(b.scores);
  }

  // ---- what a block appends ----

  /**
   * A block appends a page exactly when it closes a window and the announced event
   * is due: the new expert's initial weights, from the recorded trigger and the
   * page's number.
   */
  lemma {:induction false} AppendsIs(rules: Rules, b: Block, m: Model)
    requires rules.Valid() && Law(rules.params, m)
    ensures var h := b.header.height;
      MachineOf(rules).tails(b, m) ==
        if h > 0 && h % rules.params.window == 0 && Ripe(m)
        then [rules.pageInit(m.pending[0].trigger, |m.pages|)]
        else []
  {
    CycleIsMod(b.header.height, rules.params.window);
    if AtBoundary(rules.params, b.header.height) {
      ReportsOpened(rules.params, m, b.header.height, InputOf(b));
    }
  }

  // ---- the chain's page table is a run of the fold ----

  /** What each block of a chain feeds the fold. */
  ghost function Inputs(chain: seq<Block>): seq<Input> {
    if chain == [] then [] else Inputs(chain[..|chain| - 1]) + [InputOf(chain[|chain| - 1])]
  }

  /** Replaying blocks of heights 1, 2, ... folds exactly their inputs, in order. */
  lemma {:induction false} ReplayIsRun(rules: Rules, w: seq<int64>, chain: seq<Block>)
    requires rules.params.Valid() && forall i :: 0 <= i < |chain| ==> chain[i].header.height == i + 1
    ensures |Inputs(chain)| == |chain|
    ensures DenseReplay(rules, w, chain).1 == Run(rules.params, Inputs(chain))
  {
    if chain != [] {
      var init := chain[..|chain| - 1];
      ReplayIsRun(rules, w, init);
      assert Inputs(chain)[..|chain| - 1] == Inputs(init);
    }
  }

  /** Along an ancestry heights count up from one. */
  lemma {:induction false} HeightsCount(mc: Machine, g: Hash, t: Index, h: Hash, chain: seq<Block>, i: nat)
    requires TreeIndex.Sound(mc, g, t) && h in t.blocks && Leads(g, t, chain, h)
    ensures t.blocks[h].header.height == |chain|
    ensures i < |chain| ==> chain[i].header.height == i + 1
    decreases |chain|
  {
    if chain != [] {
      LeadsPrefix(g, t, chain, h);
      assert Linked(mc, g, t, h) && HasParent(t.blocks, h);
      HeightsCount(mc, g, t, t.blocks[h].header.prevHash, chain[..|chain| - 1], i);
    }
  }

  /** Every block's page table in an engine on the protocol's rules is the run of its ancestry's inputs. */
  lemma {:induction false} TableIsRun(rules: Rules, g: Hash, t: Index, h: Hash, chain: seq<Block>)
    requires rules.Valid() && TreeIndex.Sound(MachineOf(rules), g, t) && h in t.blocks && Leads(g, t, chain, h)
    requires t.blocks[g].model == Genesis(rules.params.spec)
    ensures t.blocks[h].model == Run(rules.params, Inputs(chain))
  {
    var mc := MachineOf(rules);
    var w := t.state[g];
    OnlyChain(mc, g, t, h, chain);
    forall i: nat | i < |chain| ensures chain[i].header.height == i + 1 { HeightsCount(mc, g, t, h, chain, i); }
    StateIsReplay(mc, g, t, h);
    GenesisIsGood(rules);
    TableIsTiled(rules.params, Genesis(rules.params.spec));
    ReplayIsDense(rules, w, chain);
    ReplayIsRun(rules, w, chain);
  }
}
