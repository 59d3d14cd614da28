# Sestrian: verified model

Sestrian is a blockchain whose state is one vector of 64-bit integer weights, laid out in pages. This
project models, in Dafny, the parts of it on which agreement between nodes rests, and proves what those
parts promise.

- **Aggregation** (`Int64`, `TrimmedMean`, `Aggregation`, `MeanLaw`): the integer trimmed mean, the dense per-page
  transition, and the sparse aggregate the node computes instead.
- **Commitments** (`Merkle`, `Fraud`, `FraudLaw`, `RepeatedTx`): the page-Merkle tree, inclusion proofs, and
  page fraud proofs.
- **Capacity** (`Capacity`, `DecisionLaw`, `ModelState`, `PageInit`, `PageTableLaw`, `WindowLaw`, `StreakLaw`,
  `CapacityLaw`, `GrowthLaw`, `WindowSteps`, `NoSustain`, `StallReached`, `LifoNeeds`): the windowed controller
  that grows, freezes and thaws expert pages, as a counter machine and as the page-level fold.
- **State engine** (`Machine`, `TreeIndex`, `AncestryLaw`, `TreeWalks`, `BlockTree`, `DenseTrees`,
  `EngineOrder`, `Sestrian`, `ProtocolLaw`, `CrossedGrowth`, `OrderMatters`, `PagedValidator`): one weight
  vector mutated in place, sparse reversible records, a leaf cache, side branches and reorgs; and the
  validator that stores only some pages.
- **Ledger** (`Token`, `TokenLedger`, `AccountLaw`, `SettlementLaw`, `RewardLaw`, `SketchLaw`,
  `LedgerConservation`, `PayoutLaw`, `EmissionLaw`, `LedgerMarket`, `CanonicalOrder`): emission, reward split,
  escrow, bonds, fee pools, challenges, nonces.
- **Gossip** (`Gossip`): orphan buffering and heaviest-chain fork choice.
- **Erasure coding** (`GaloisField`, `FieldLaws`, `LinearAlgebra`, `Vandermonde`, `ShardLaw`, `ErasureCode`):
  Reed-Solomon dispersal over the field of section 4.2 of FIPS 197.
- `Division`, `Sums`, `Ordering` and `Wrappers` hold arithmetic, finite sums, sorted iteration and an option
  type.

## Reading the model

- State that the source changes in place is a class (`BlockTree`, `PagedNode`, `CapacityRetarget`,
  `TokenLedger`, `GossipNode`); each method says what the new state is in terms of a value-level function,
  and the laws are lemmas about those functions.
- Each definition that several parts share (the work of a block, the window decision, the trimmed mean, the
  layout of data rows, the effect of a transaction, the split of a reward) is also characterised by a law
  that does not use it: on the fields themselves, with the protocol's numbers written out, and without
  division where the source divides. These are the modules named `...Law`.
- SHA-256 is injective. Page hashes are the constructors `Leaf` and `Node`; in `Fraud` a committed hash is
  represented by what it commits. Block and transaction ids are numbers, ordered as their hex strings are.
- Signatures, the lottery, the set roots and everything else that does not touch weights enter the engine as
  function values (`Machine.check`), so the engine's theorems hold for any such rules; `Sestrian` supplies
  the page table, the fold, the aggregate, growth and the body rules.
- The maps of one block in `blocktree.rs` (`blocks`, `ledger`, `model`, `cum_work`; `undo`, `redo`) are one
  map of records each. Block bodies and dense states, which the node does not keep, are ghost maps.
- `floor(k * 0.2)` is `k / 5`. The int64 sum of a column wraps at every addition.
- Where code and documentation differ the code is followed: the fold ignores `growth_bound` and has no
  `e_max` guard; `merkle.verify` never reads its index.
- Properties that fail on some inputs are stated with the condition under which they hold and an input that
  shows the need:
  - the leaf cache. A node's cache describes its vector if and only if the head's committed root is true
    (`CacheIsHonesty`); an honest block is accepted if and only if every cached leaf it does not rehash is
    right (`VerdictExact`); a rewind can leave a wrong leaf only across growth on both branches
    (`UncrossedSuffices`), and then an honest block can be refused (`StaleLeaf`, on the protocol's own rules);
  - the order of blocks. A run of the engine without repetition ends with the tree dense validation makes of the fed blocks if and
    only if every honest block it judged met a cache that sufficed and every other was refused (`RunExact`).
    That holds in every parent-first order when, in that tree, the blocks that grow the model lie on one chain
    (`AnyOrder`); on a fork that grows on both branches two orders can end with different trees (`TwoOrders`);
  - the bound for growth, `(quota_max - quota_min) + frozen + k_sustain + announce_lead` windows, holds unless
    there is no lead and the band is a single quota; then it is one window late in every run (`GrowthIsLive`,
    `NoEarlyGrowth`, `NoLeadIsLate`);
  - `k_sustain` must be at least 1, which the source does not check. At 0, whatever the lead, a
    surge in a window that opens a page behind a frozen one ends growth for good (`SurgeStopsGrowth`); such a
    window is reached for every lead and every band in which the quota can climb, here with one-block windows
    and a quorum of at most one (`StallReachable`; for other windows and quorums it is a hypothesis). The fold
    agrees with the controller exactly as long as no window thaws and freezes with no other grown page active
    (`RunAgreesExactly`, `ZeroStreakDiverges`);
  - newest-first freezing needs `k_sustain` at least 1 (`NoStreakBreaksLifo`) and a lead no longer than
    `k_sustain` (`LongLeadBreaksLifo`);
  - positional Merkle claims (`ProofExact`, `IndexIsNotBound`);
  - fraud proofs. Bound evidence clears an honest page if and only if its transactions move the page as the
    committed ones do (`HonestClearedExactly`), as they do when the page's claimants are the same or no
    transaction is repeated (`FraudIsReal`, `DistinctFraudIsReal`, `RepetitionConvictsHonestBlock`);
  - overlapping pages, on which the dense loop adds and the sparse one overwrites (`LoopsAgree`,
    `OverlapDiffers`); page tables never overlap (`Tiles`);
  - the head rule. `connect_extend` adopts without comparing, so at the u64 limit the head is the heaviest block
    exactly when no block whose work has saturated has a smaller id (`HeadAtTheLimit`).

## Model

| member | source | states |
|---|---|---|
| `TrimmedMean.WrapSumIsWrappedSum` | rig/chain.py:58-58 | the int64 accumulation equals the true sum reduced modulo 2^64 |
| `TrimmedMean.OrderIrrelevant` | rig/chain.py:44-58 | the trimmed mean depends only on the multiset of values |
| `TrimmedMean.ByzantineRobust` | rig/chain.py:37-58 | with at least three values, at most max(1, k/5) of them arbitrary and no overflow, the mean lies between any bounds of the honest values |
| `TrimmedMean.ByzantineRobustRows` | rig/chain.py:37-58 | the same for every coordinate of rows of any length |
| `MeanLaw.MeanIsMean` | rig/chain.py:37-58 | for every nonempty column and every split of it into the least, the middle and the greatest values, a fifth at each end and at least one from three values on: with n middle values of sum S (its int64 residue, if it overflows), n * mean <= S < n * mean + n, and S is the column's sum less the dropped values |
| `MeanLaw.SplitOf` | rig/chain.py:44-57 | every nonempty column has such a split |
| `Aggregation.PagedTransition` | rig/chain.py:61-78 | on any layout, a coordinate gets the trimmed mean of every page that holds it, one after the other; without overlap that is the closed-form transition that `MeanLaw.TransitionAdds` and `MeanLaw.TransitionKeeps` describe |
| `MeanLaw.TransitionAdds` | rig/chain.py:71-78 | on a table that fits, a coordinate of a claimed page moves, in int64, by exactly the floor average of the middle ones of the values its claimants' bodies hold there |
| `MeanLaw.TransitionKeeps` | rig/chain.py:71-78 | every other coordinate stays |
| `Aggregation.PageAggregate` | node/core/src/blocktree.rs:591-619 | on any layout, the touched-coordinate loops keep the last nonzero mean of the pages that hold a coordinate; without overlap those are exactly the nonzero moves of the dense transition |
| `Aggregation.SparseEqualsDense` | node/core/src/blocktree.rs:591-619 | applying the closed-form sparse aggregate equals the closed-form dense transition, for every block |
| `Aggregation.LoopsAgree` | node/core/src/blocktree.rs:591-619 | on any layout the two loops give one state if and only if at every coordinate the pages' means sum, modulo 2^64, to the last nonzero one, as they do without overlap |
| `Aggregation.OverlapDiffers` | rig/chain.py:73-77 | two claimed pages over one coordinate: the dense loop moves it by 2, the sparse one by 1 |
| `Aggregation.TxOrderIrrelevant` | rig/chain.py:61-78 | neither form depends on the order in which the block lists its transactions |
| `Merkle.Build` | rig/merkle.py:28-44 | the level loop builds the tree of the leaf hashes |
| `Merkle.RootFromHashes` | rig/fraud.py:136-140 | folding hashes level by level gives the root |
| `Merkle.UpAfter` | rig/merkle.py:36-43 | behind an even number of digests the level above goes on as if they were not there |
| `Merkle.OddRepeatsLast` | rig/merkle.py:36-43 | an odd level of more than one digest has the root of that level with its last digest repeated |
| `Merkle.Proof` | rig/merkle.py:51-61 | the walk up the levels collects the inclusion path of the index |
| `Merkle.Verify` | rig/merkle.py:64-69 | accepts exactly when the path folds the page's leaf to the root, whatever the index |
| `Merkle.ProofComplete` | rig/merkle.py:51-69 | the built path of every leaf verifies |
| `Merkle.ProofSound` | rig/merkle.py:64-69 | a verifying path whose side letters are those of the index proves that very leaf, and is the built path |
| `Merkle.ProofExact` | rig/merkle.py:64-69 | a path that folds to the root has the side letters of an index if and only if it is that leaf's built path |
| `Merkle.RootInjective` | rig/merkle.py:28-48 | equally long leaf lists with equal roots are equal |
| `Machine.RootBindsState` | rig/model_state.py:228-231 | over one page table, two vectors have equal state roots if and only if they are equal |
| `Merkle.IndexIsNotBound` | rig/merkle.py:64-69 | without the side letters a path can verify a page that is not at the claimed index |
| `Capacity.DecideBand` | rig/capacity.py:57-66 | the decided quota stays in its band |
| `Capacity.QuotaClimbs` | rig/capacity.py:57-66 | under demand above target the quota strictly rises until it is capped |
| `DecisionLaw.QuotaIsTheStep` | rig/capacity.py:57-66 | the next quota is the only number reached by the three steps, each given by inequalities: the correction (the floor in an empty window), the damped step, the clamp |
| `DecisionLaw.QuotaFalls` | rig/capacity.py:57-66 | with fewer deltas than the target the quota falls strictly, until it is at the floor |
| `DecisionLaw.DecisionIs` | rig/capacity.py:68-84 | a decision is the right one if and only if its quota is that step, its streaks are extended or broken by surplus (enough deltas, gate open, quota above 95 hundredths of the ceiling, floored) and deficit (too few deltas, quota at most 105 hundredths of the floor), and its flags are their thresholds |
| `DecisionLaw.ObserveIs` | rig/capacity.py:109-157 | from any counters, one observed window leaves exactly the counters that the two signals, the due growth events and the thaw-grow-freeze rules give, the rules being spelled out on the fields |
| `DecisionLaw.NotDueKeeps` | rig/capacity.py:116-122 | what stays announced is exactly what lies after the window |
| `Capacity.CapacityRetarget.ObserveWindow` | rig/capacity.py:109-157 | one window moves all seven counters as the controller function says, which is pinned by `DecisionLaw.ObserveIs`, and each reported event is exactly the change it stands for |
| `ModelState.BuildGenesis` | rig/model_state.py:159-167 | the nested layout loops produce the closed-form genesis table |
| `PageInit.Fill` | rig/model_state.py:234-255 | the digest and lane loops draw every weight from the hash stream and leave every bias zero |
| `PageInit.InitialIs` | rig/model_state.py:234-255 | a page is the right one if and only if it is W1, b1, W2 and b2 in that order and length, every weight its stream value moved by a multiple of 2623 into [-1311, 1311] from an offset of 1311, and every bias zero |
| `PageInit.TriggersDiffer` | rig/model_state.py:234-255 | two triggers start a page differently if and only if some weight's draw differs |
| `ModelState.FoldBlock` | rig/model_state.py:258-361 | the step-by-step fold computes the fold function, whose runs `StreakLaw.RunTurns` describes window by window, and reports the pages it appended |
| `StreakLaw.StartsAt` | rig/model_state.py:131-167 | a run starts at quota 10000 with no streak, nothing announced, and the genesis pages awake |
| `StreakLaw.RunTallied` | rig/model_state.py:270-290 | in every run the open window's accumulators are exactly the blocks' own sums since the last boundary; the recorded scorers reach the quorum exactly when the distinct attributable scorers do |
| `StreakLaw.RunTurns` | rig/model_state.py:293-361 | every window of every run, on its blocks' accepted deltas and gate: the quota is the damped step or, when growth is announced, the middle of the band; the lowest frozen page thaws, the newest active grown page freezes and growth is announced exactly when the signals and streaks say so; streaks, announcement (window, layer, parent hash) and every other field are as stated |
| `StreakLaw.RunRests` | rig/model_state.py:293-293 | a block that closes no window leaves table, quota, streaks and announcement alone |
| `StreakLaw.BoundaryIs` | rig/model_state.py:293-293 | windows close at the positive multiples of the window length |
| `StreakLaw.HistoryOf` | rig/model_state.py:258-361 | every run has a history: its states and, per window, the accepted deltas, the gate and the stepped quota, all stated on the blocks |
| `StreakLaw.OneHistory` | rig/model_state.py:258-361 | and only one |
| `StreakLaw.StreaksCount` | rig/capacity.py:73-84 | over every run the deficit streak is the number of declining windows since the last freeze, and the surplus streak the number of surplus windows since the last thaw or announcement |
| `StreakLaw.FreezesExactly` | rig/model_state.py:351-354 | over every run a block freezes a page if and only if it closes a window, that streak of declining windows has reached k_sustain, and a grown page is active or just opened; it freezes the newest of them and no other page |
| `StreakLaw.ThawsExactly` | rig/model_state.py:332-341 | a page thaws if and only if a window of surplus closes with a grown page frozen; it is the lowest |
| `StreakLaw.SchedulesExactly` | rig/model_state.py:342-349 | growth is announced if and only if the streak of surplus windows has reached k_sustain, nothing thaws and nothing is announced |
| `StreakLaw.FreezeNeedsDecline` | rig/capacity.py:73-84 | no page freezes but at the end of k_sustain consecutive windows, each with fewer deltas than the target and a stepped quota of at most 105 hundredths of the floor |
| `StreakLaw.GrowthNeedsSurplus` | rig/capacity.py:68-84 | no growth is announced but at the end of k_sustain consecutive windows, each meeting the target with its gate open and the stepped quota at the ceiling |
| `WindowLaw.ReportsOpened` | rig/model_state.py:295-310 | a boundary reports the page it opens: the next number, the next layer in turn with its next expert index, and the trigger the announcement recorded |
| `PageTableLaw.RunLaw` | rig/model_state.py:258-361 | over every run the table is the closed-form layout, events are grown pages plus at most one pending, the quota is in its band |
| `PageTableLaw.SpansAre` | rig/model_state.py:158-167 | page 0 is the backbone, and page i starts at backbone + (i - 1) * expert length and has that length |
| `PageTableLaw.KindsAre` | rig/model_state.py:159-167 | genesis experts are numbered layer by layer; grown pages go round-robin over the layers, each with its layer's next index |
| `PageTableLaw.Tiles` | rig/model_state.py:200-205 | spans tile [0, dim) in page order |
| `PageTableLaw.PagesPersist` | rig/model_state.py:293-310 | a page keeps its id, span, layer and expert in every later state |
| `PageTableLaw.ExpertsUniqueGapFree` | rig/model_state.py:293-310 | no two pages are the same expert, and every layer's expert indices have no gap |
| `PageTableLaw.LayersBalanced` | rig/model_state.py:293-349 | expert counts of any two layers differ by at most one |
| `PageTableLaw.FoldAppends` | rig/model_state.py:293-310 | a block appends exactly the reported pages, contiguously at the end of the vector |
| `CapacityLaw.RunLifo` | rig/model_state.py:295-354 | with k_sustain at least 1 and a lead no longer than it, in every reachable state the frozen pages are a suffix of the grown pages and no genesis page is frozen |
| `LifoNeeds.NoStreakBreaksLifo` | rig/model_state.py:336-354 | with k_sustain 0, for the same leads, bands and windows, some run leaves an active page behind a frozen one |
| `LifoNeeds.LongLeadBreaksLifo` | rig/model_state.py:295-354 | with a lead of two and k_sustain 1, five windows append a page behind a frozen one |
| `LifoNeeds.PatientExists` | rig/model_state.py:69-85 | such parameters exist |
| `CapacityLaw.RunAgreesExactly` | rig/model_state.py:293-360 | for every parameter set, the fold projects field for field onto the counter controller throughout a run if and only if no window thaws and freezes with no other grown page active |
| `CapacityLaw.RunRefinesController` | rig/model_state.py:293-360 | with k_sustain at least 1 the fold over any blocks projects onto the controller fed the same window signals |
| `NoSustain.ZeroStreakDiverges` | rig/model_state.py:336-354 | with k_sustain 0 and a lead of two, the fold and the controller part in the fourth window in demand |
| `GrowthLaw.GrowthIsLive` | rig/model_state.py:293-349 | bounded liveness, for k_sustain at least 1: sustained demand with an open gate appends a page within (quota_max - quota_min) + frozen + k_sustain + announce_lead windows, one more if there is no lead and the band is a single quota |
| `GrowthLaw.NoEarlyGrowth` | rig/model_state.py:293-349 | no run appends a page before window k_sustain + max(1, announce_lead), so the exception is exact |
| `GrowthLaw.NoLeadIsLate` | rig/model_state.py:293-349 | a run with no lead and a single quota that misses the bound without the extra window |
| `NoSustain.GrowthStalls` | rig/model_state.py:336-354 | with k_sustain 0 and any band in which the quota can climb, once a frozen and an active grown page coexist at the quota ceiling with nothing announced, no run of windows in demand appends a page |
| `NoSustain.SurgeStopsGrowth` | rig/model_state.py:293-354 | the same from any window that opens a page behind a frozen one and carries a surge, for every lead, table and window length: the page it opens is the last |
| `StallReached.StallReachable` | rig/model_state.py:293-354 | for every lead and every band in which the quota can climb there is a run that stalls (one-block windows, quorum at most one) |
| `NoSustain.ZeroStreakStopsGrowth` | rig/model_state.py:336-354 | with k_sustain 0 and a lead of one, demand in every window from genesis on stops growth at three pages |
| `NoSustain.EagerExists` | rig/model_state.py:69-85 | the parameters of `ZeroStreakStopsGrowth` and `ZeroStreakDiverges` exist, for every lead |
| `GrowthLaw.GrowthNeedsQuorum` | rig/model_state.py:276-349 | every scheduled growth follows k_sustain windows that met the target and, from v4 on, had a quorum of distinct scoring proposers |
| `Machine.UndoInverts` | node/core/src/blocktree.rs:967-995 | truncating the tail and restoring the recorded values gives back the parent vector |
| `TreeIndex.GrowSound` | node/core/src/blocktree.rs:967-995 | accepting a block keeps every recorded step exact and every block's state its dense post-state |
| `TreeIndex.StateIsReplay` | rig/blockchain.py:591-618 | the state of every block in the tree is the dense replay of its ancestry |
| `AncestryLaw.WorkIsHeft` | node/core/src/blocktree.rs:870-871 | for any list of known blocks that links genesis to a block, the block's recorded work is the sum over the list of the larger of one and the declared work, capped at 2^64 - 1 |
| `AncestryLaw.HeadOutweighs` | node/core/src/blocktree.rs:1025-1028 | below that limit a heaviest head ends the chain with the greatest such sum; of equal sums, the smallest id |
| `AncestryLaw.ChainLeads` | rig/blockchain.py:582-589 | every known block has such a list, its ancestry |
| `AncestryLaw.OnlyChain` | rig/blockchain.py:582-589 | and only one |
| `AncestryLaw.JurorsAreRecent` | node/core/src/blocktree.rs:795-807 | the jurors of a tip are exactly the proposers of the last 32 blocks of its chain, or of all of them when there are fewer |
| `TreeWalks.KeptPage` | node/core/src/blocktree.rs:1122-1155 | a page older than the fork that no walked block touched has the same weights at both ends of a rewind |
| `TreeWalks.RewoundLeaf` | node/core/src/blocktree.rs:1122-1155 | a leaf left by a rewind is right if and only if it was rehashed, or the page was not appended on both branches, or both gave it the same weights |
| `TreeWalks.CacheAtTrue` | node/core/src/blocktree.rs:1122-1155 | from a true cache, a rewind that does not cross growth on both branches leaves the whole true leaf cache of the target |
| `TreeWalks.RewoundCache` | node/core/src/blocktree.rs:1122-1155 | a rewind that does not cross growth on both branches leaves the whole leaf cache of the target |
| `CrossedGrowth.StaleLeaf` | node/core/src/blocktree.rs:1138-1154 | on the protocol's own rules, for any page length and any page initialisation that tells the two triggers apart: a fork that grows on both branches, on whose honest head the rewind keeps a wrong leaf and an honest child of the other tip is refused |
| `CrossedGrowth.RulesExist` | rig/model_state.py:234-255 | such rules exist: pages drawn by page_init from any hash stream that draws some weight differently for the two triggers |
| `BlockTree.RenewedIsPostState` | node/core/src/blocktree.rs:839-854 | rehashing touched pages and appending grown ones gives the leaves of the materialised post-state |
| `BlockTree.CacheIsHonesty` | node/core/src/blocktree.rs:967-995 | after any run the cache describes the vector if and only if the head's committed root is the root of its dense state |
| `BlockTree.LeafWithSubs` | node/core/src/blocktree.rs:621-642 | streaming a page with substitutions hashes the moved page |
| `BlockTree.BlockTree.constructor` | node/core/src/blocktree.rs:652-700 | a fresh tree at genesis satisfies the invariant |
| `BlockTree.BlockTree.FindPlan` | node/core/src/blocktree.rs:1060-1098 | a plan exists exactly when the target is known and every block on one ancestry but not the other has its record |
| `BlockTree.BlockTree.RewindTo` | node/core/src/blocktree.rs:1060-1156 | moves the vector to the dense state of the target and the cache to the rehashed one; an error changes nothing |
| `BlockTree.BlockTree.RollForward` | node/core/src/blocktree.rs:1161-1184 | restores vector and leaf cache exactly |
| `BlockTree.BlockTree.StateAt` | node/core/src/blocktree.rs:1190-1241 | the copying form returns the same dense state, under the same condition |
| `BlockTree.BlockTree.WithStateAt` | node/core/src/blocktree.rs:1541-1550 | a function of the dense state of the target, with vector and cache untouched afterwards |
| `BlockTree.RecentProposers` | node/core/src/blocktree.rs:795-808 | the proposers of the last PROPOSER_LOOKBACK ancestors |
| `BlockTree.BlockTree.StateRootWith` | node/core/src/blocktree.rs:839-854 | the root and leaves of vector plus aggregate plus grown pages |
| `BlockTree.BlockTree.ValidateAtBase` | node/core/src/blocktree.rs:882-961 | stages exactly the blocks whose bodies, weight-free rules and root check out, changing nothing |
| `BlockTree.VerdictExact` | node/core/src/blocktree.rs:882-961 | for any cache at the parent, an honest block is staged if and only if every page it does not touch has a true leaf, and a staged block is honest if and only if that held |
| `BlockTree.UncrossedSuffices` | node/core/src/blocktree.rs:1122-1155 | from an honest head, a rewind not crossing growth on both branches makes the verdict dense validation |
| `BlockTree.HeadAtTheLimit` | node/core/src/blocktree.rs:860-876 | an extension of the head is the heaviest block if and only if no block whose work has saturated has a smaller id |
| `BlockTree.BlockTree.CommitStaged` | node/core/src/blocktree.rs:967-995 | the commit keeps the invariant and grows the index by the block |
| `BlockTree.BlockTree.ConnectExtend` | node/core/src/blocktree.rs:860-876 | adopts exactly the blocks staged on the node's own cache, with the staged leaves; a rejection changes nothing |
| `BlockTree.BlockTree.ConnectSide` | node/core/src/blocktree.rs:1005-1052 | rejects, parks or adopts a side block by the rewound cache, saying exactly when and why; rejected and parked blocks leave vector, cache and head as they were |
| `BlockTree.BlockTree.PruneDeep` | node/core/src/blocktree.rs:1374-1392 | forgets exactly the records below the window, and none without a window |
| `BlockTree.BlockTree.AddBlock` | node/core/src/blocktree.rs:1244-1270 | after any sequence of calls the vector is the head's dense state and the records are exact; an honest block is accepted, and an accepted block honest, if and only if the cache it is judged with suffices; after an adoption the cache describes the vector if and only if the block was honest; below the u64 limit the head ends the chain with the greatest sum of works, smallest id first; a side block is adopted exactly when it beats the head; exactly the records within the undo window are kept |
| `BlockTree.BlockTree.CanonIsReplay` | rig/blockchain.py:591-618 | the vector is the replay of the head's ancestry from genesis |
| `EngineOrder.JudgesDensely` | node/core/src/blocktree.rs:1005-1052 | while the blocks that grew lie on one chain, the tree is honest and nothing is pruned, the engine's verdict on any block is dense validation |
| `EngineOrder.RunExact` | node/core/src/blocktree.rs:1005-1052 | a run without repetition ends with the dense tree if and only if every honest block it judged met a cache that sufficed and every other was refused |
| `DenseTrees.TreesAgree` | node/core/src/blocktree.rs:1244-1270 | trees that hold exactly what dense validation makes of one set of blocks are equal |
| `DenseTrees.FaithfulIsDense` | node/core/src/blocktree.rs:1244-1270 | a tree of fed blocks holds all that dense validation accepts of them, and nothing else, if and only if it is the tree dense validation builds |
| `EngineOrder.AnyOrder` | node/core/src/blocktree.rs:1244-1270 | if growth lies on one chain in the dense tree of a set of blocks, below the u64 limit, two engines fed the set in any parent-first orders, with repetition, end with that tree and the same head, vector and leaf cache |
| `OrderMatters.TwoOrders` | node/core/src/blocktree.rs:1138-1154 | on the protocol's own rules: one set of blocks, two parent-first orders, and the two engines end with different trees |
| `Sestrian.IsMachine` | node/core/src/blocktree.rs:942-961 | the protocol's table, fold, aggregate and growth satisfy what the engine asks of its rules |
| `Sestrian.StepIsDense` | rig/blockchain.py:425-446 | the engine's step is the dense transition followed by one initialised page per activation, of the new table's dimension |
| `Sestrian.ReplayIsDense` | rig/blockchain.py:591-618 | the engine's replay is the reference replay, with the page-table law and the right dimension throughout |
| `Sestrian.NodeFollowsReplay` | rig/blockchain.py:591-618 | a full node on the protocol's rules holds the reference replay of its head |
| `ProtocolLaw.BodyIs` | rig/blockchain.py:348-395 | a body passes if and only if it names no coordinate past its length and its dense image is as long as the model, claims active pages once each and in order, is zero outside them, and has at most the envelope's number of nonzero values and at least the quota's, a hundredth of the claimed parameters at quota 10000 |
| `ProtocolLaw.InputIs` | rig/blockchain.py:435-441 | the fold is fed the number of transactions, of those without a positive score, the parent hash, the sum of the scores and the proposer |
| `ProtocolLaw.AppendsIs` | rig/blockchain.py:438-443 | a block appends a page if and only if it closes a window and the announced event is due: the initial weights for the recorded trigger and the page's number |
| `ProtocolLaw.TableIsRun` | rig/blockchain.py:605-617 | in an engine on the protocol's rules, every block's page table is the run of the fold on its ancestry's inputs at heights 1, 2, ... |
| `PagedValidator.PagedNode.constructor` | node/core/src/blocktree.rs:703-738 | packs the held pages, the backbone always among them |
| `PagedValidator.PagedNode.CommitHeld` | node/core/src/blocktree.rs:1342-1352 | the compact vector stays the held slices of the moved full vector, and the record holds the held coordinates |
| `PagedValidator.PagedNode.Connect` | node/core/src/blocktree.rs:1276-1365 | accepts exactly when the weight-free rules pass and its leaves fold to the committed root, growth included; the full vector it stands for takes the block's step; it stays able to follow exactly if the block grew nothing |
| `PagedValidator.TrueWitnessLeaves` | node/core/src/blocktree.rs:1302-1325 | with a true witness the paged leaves are the full node's |
| `PagedValidator.Boot` | node/core/src/blocktree.rs:703-738 | a full and a paged node booted from one genesis match, whichever pages are held |
| `PagedValidator.Lockstep` | node/core/src/blocktree.rs:1276-1365 | on a block that grows nothing both nodes give the same verdict, body rules aside, and stay matched |
| `PagedValidator.FollowChain` | node/core/src/blocktree.rs:1276-1365 | over a whole growth-free chain the paged node accepts every block the full node accepts, with the same head and leaves and the held slices of the replayed vector |
| `Ordering.AscendingLists` | rig/token.py:401-401 | sorted iteration visits every key once, in order |
| `TokenLedger.TokenLedger.ResolveExpiredChallenges` | rig/token.py:393-416 | settles the closed challenges in id order |
| `TokenLedger.TokenLedger.ResolveExpiredBonds` | rig/token.py:368-376 | releases the matured bonds in id order |
| `SettlementLaw.BondsReleased` | rig/token.py:368-376 | for every account: releasing bonds gives it exactly its own matured ones; the others stay, and nothing else moves |
| `SettlementLaw.ChallengesSettled` | rig/token.py:393-416 | in every market, for every account: closing challenges gives it the stakes it won (at least three votes for and a strict majority, or else the owner) and no more; exactly the open challenges stay |
| `SettlementLaw.LosersRevoked` | rig/token.py:405-416 | exactly the entries that lost are revoked, with their stakes gone; the others are as they were |
| `TokenLedger.TokenLedger.ApplyReward` | rig/token.py:305-365 | the payout loops mint the emission and drain the fee pools with recipients, crediting miners, proposer and owners the shares of the reward function |
| `RewardLaw.MintIs` | rig/token.py:78-83 | the emission is fifty tokens halved every million blocks, never below 97656250 grains, and nothing at height 0 |
| `RewardLaw.RewardIs` | rig/token.py:305-365 | for every account: a block's reward adds its part of 70 hundredths of the emission and the training fees by the worth of its deltas, 10 hundredths if it proposed, and its part of 20 hundredths and the data fees by the credit of the contents whose newest active entry it owns, or the bare cut if it is the contributor and nothing is credited; a pool nobody can take is carried on |
| `RewardLaw.PartIsFloor` | rig/token.py:361-361 | an owner's part is pool * credit // total |
| `RewardLaw.CreditIs` | rig/blockchain.py:222-234 | a content's credit is, over the deltas that name it, ten thousand times their worth (the score, or one each when no delta has any) divided by the number of earning contents they name |
| `RewardLaw.ProvenanceIs` | rig/blockchain.py:209-216 | provenance holds if and only if every delta names some content with an active entry |
| `SketchLaw.SketchIs` | rig/blockchain.py:239-246 | a delta with distinct references accrues its sketch, times ten thousand over the number of entries it names, floored and saturating, onto exactly the newest active entries of its references |
| `TokenLedger.TokenLedger.LockBond` | rig/token.py:378-390 | locks an affordable bond; otherwise false and unchanged |
| `SettlementLaw.LockIs` | rig/token.py:378-390 | fails exactly when the miner cannot pay; moves the amount from the miner, and no other balance, into a bond that matures 20 blocks later |
| `SettlementLaw.LocksExactly` | rig/blockchain.py:252-258 | a block's bonds lock if and only if every miner can pay all of its own, and then each miner pays exactly those |
| `SettlementLaw.BondsBeforeTxs` | rig/blockchain.py:247-267 | a valid block's bonds come out of the balances after settlement and reward, before its account transactions |
| `TokenLedger.TokenLedger.ApplyTx` | rig/token.py:419-537 | applies a transaction if and only if it is allowed, and then changes exactly what it says, both spelled out per kind on the fields: balances account by account, nonces, and the other fields; otherwise false and unchanged |
| `AccountLaw.ApplyIs` | rig/token.py:419-537 | the same of the ledger function: a transfer takes the amount from the sender and gives it to the recipient, all others unmoved; a submission appends one entry; a challenge is open for 20 blocks; a vote enters one name on the side it supports; a fee pays fifths to data and training and the rest to the server, the data part in proportion to the owners' aligned sketches or to the pool |
| `TokenLedger.TokenLedger.ApplyBlock` | rig/blockchain.py:188-267 | the block transition on a copy of the parent ledger, failing exactly when a step is invalid |
| `LedgerConservation.ShareIsQuotient` | rig/token.py:341-341 | a share is pool * weight // total |
| `LedgerConservation.RewardTotal` | rig/token.py:305-365 | a reward adds at most the emission, fee pools included |
| `LedgerConservation.LockBondTotal` | rig/token.py:378-390 | locking conserves the total, unless it overwrites an equal transaction id |
| `LedgerConservation.ReceiptTotal` | rig/token.py:478-517 | a fee splits exactly, up to the dust of an aligned data slice |
| `LedgerConservation.BlockTotal` | rig/blockchain.py:188-267 | a block adds at most its emission to everything the ledger holds |
| `LedgerConservation.RunConserves` | rig/token.py:305-537 | over every run balances, stakes, bonds and pools together never exceed the emission so far |
| `PayoutLaw.CreditedAccount` | rig/token.py:300-302 | credits reach exactly the accounts they name |
| `PayoutLaw.MinerShare` | rig/token.py:333-341 | a miner is paid pool * score // total however often it is listed, and nobody else is paid |
| `PayoutLaw.RewardTight` | rig/token.py:305-365 | for a block with deltas, a proposer and paid data, both pools are drained and nothing is burned but at most one grain per payout and two for the cuts |
| `PayoutLaw.SettlementExact` | rig/token.py:393-416 | settling burns nothing: the winner, and only the winner, gains the stakes |
| `EmissionLaw.EmissionAt` | rig/token.py:78-83 | the reward of every block of every epoch |
| `EmissionLaw.MintedInEpoch` | rig/token.py:78-83 | cumulative emission inside the halving epochs |
| `EmissionLaw.MintedAfterTenEpochs` | rig/token.py:39-42 | cumulative emission is HALVING_BLOCKS * (2 * BASE_REWARD - TAIL_REWARD) at ten epochs plus TAIL_REWARD per later block |
| `LedgerMarket.BlockKeeps` | rig/blockchain.py:188-267 | a block keeps the market invariant, accounts for every entry's stake and numbers its transactions |
| `LedgerMarket.RunKeeps` | rig/token.py:393-521 | over every run each open challenge targets an existing active entry, at most one per entry, with distinct jurors who are neither owner nor challenger; each nonce counts the account's applied transactions |
| `LedgerMarket.NoReplay` | rig/token.py:419-537 | along a run an account's nonces strictly increase, so no transaction applies twice |
| `LedgerMarket.StakeLeavesByConviction` | rig/token.py:393-416 | a stake leaves escrow only by an upheld challenge with at least three distinct disinterested votes and a strict majority |
| `CanonicalOrder.CanonicalSorted` | rig/token.py:585-590 | the merged order is by sender, then nonce, then id |
| `CanonicalOrder.ListingIrrelevant` | rig/token.py:585-590 | the ledger transition does not depend on how a block lists its account transactions |
| `Gossip.GossipNode.Attach` | rig/blockchain.py:513-546 | attaches exactly the valid blocks and keeps the head the greatest work, then smallest id |
| `Gossip.WorkIsHeft` | rig/blockchain.py:537-537 | whatever chain of attached blocks leads from genesis to a block, the block's work is the sum over it of the larger of one and the declared work |
| `Gossip.BestOutweighs` | rig/blockchain.py:538-542 | a head is best if and only if its chain has the greatest such sum, smallest id first |
| `Gossip.GossipNode.Receive` | rig/p2p.py:115-129 | terminates, places the block and every orphan it releases, forwards exactly the newly seen blocks, each once, and has seen the block exactly if it is attached |
| `Gossip.GossipNode.ChainFromGenesis` | rig/blockchain.py:582-589 | the head's lineage, oldest first, each block extending the one before; no chain of attached blocks outweighs it |
| `Gossip.TreesAgree` | rig/blockchain.py:513-546 | the delivered set determines the tree |
| `Gossip.Agreement` | rig/p2p.py:115-129 | two nodes delivered the same set hold the same blocks and head |
| `Gossip.AnyOrder` | rig/p2p.py:115-129 | any two delivery sequences of one set, with any duplication, end in the same tree and head |
| `Gossip.Heal` | rig/p2p.py:115-142 | two reconciled nodes re-announce their chains and forward what is new to them until both are quiet: they follow one head, whatever orphans they had buffered, and the better of the two heads if none |
| `Fraud.Densify` | rig/fraud.py:56-68 | succeeds exactly on sorted unique in-range coordinates, with the dense image |
| `Fraud.Verify` | rig/fraud.py:112-195 | for any evidence, reports fraud exactly when every commitment binds and the recomputed leaf differs from the committed one; raises exactly when a committed span outside the vector makes the recomputation impossible; in both cases every supplied transaction is signed, committed and built on the parent, and its claimant body is the committed delta |
| `Fraud.BindsIs` | rig/fraud.py:119-184 | evidence binds if and only if its own fields document the case: headers, page table, leaves, transaction set and count, signatures, base heights, bodies, parent page and path |
| `Fraud.PageAfterIsTransition` | rig/fraud.py:185-189 | the one-page rule is that page of the dense transition |
| `FraudLaw.HonestLeafIs` | rig/fraud.py:185-190 | coordinate by coordinate, the honest leaf of a claimed page holds the parent's weight moved by the floor average of the middle ones of the claimants' committed deltas |
| `FraudLaw.UnclaimedLeafIs` | rig/fraud.py:185-190 | a page nobody claims keeps its parent's leaf |
| `Fraud.EvidenceIsTrue` | rig/fraud.py:112-195 | binding evidence with the page's side letters and the committed claimants is about the block's own parent page and leaves |
| `Fraud.RecomputesExactly` | rig/fraud.py:112-195 | bound evidence with the page's side letters recomputes the honest leaf if and only if its transactions move every coordinate of the page as the committed ones do |
| `Fraud.HonestClearedExactly` | rig/fraud.py:112-195 | such evidence clears an honest page exactly then |
| `Fraud.FraudIsReal` | rig/fraud.py:112-195 | any supplied proof with the page's committed claimants and side letters convicts exactly when the committed leaf is not the honest one |
| `Fraud.DistinctFraudIsReal` | rig/fraud.py:112-195 | the same for any proof whose transactions are pairwise distinct |
| `Fraud.Build` | rig/fraud.py:71-109 | a prover's evidence binds, with the page's side letters |
| `Fraud.BuildThenVerify` | rig/fraud.py:71-195 | verify(build(...)) reports fraud exactly when the committed leaf differs from the honest one |
| `RepeatedTx.RepetitionConvictsHonestBlock` | rig/fraud.py:143-162 | an honest two-transaction block, and a binding proof that repeats one of its transactions and convicts it |
| `GaloisField.Order` | rig/da.py:31-42 | the generator's 255th power is one and its 15th, 51st and 85th are not |
| `GaloisField.ScaleIsTimes` | rig/da.py:33-40 | the table step, iterated, is the field product with a power of the generator |
| `FieldLaws.EveryByteIsPower` | rig/da.py:31-42 | every nonzero byte appears in the exponent table |
| `FieldLaws.BuildTables` | rig/da.py:31-42 | the loops fill both tables with the powers and logarithms of the generator |
| `FieldLaws.TableMul` | rig/da.py:45-48 | the lookup is the field product of section 4.2 of FIPS 197 |
| `FieldLaws.TableInv` | rig/da.py:51-52 | the lookup inverts every nonzero byte |
| `FieldLaws.IsField` | rig/da.py:31-52 | addition and multiplication satisfy the field laws, with the powers of the generator as the nonzero elements |
| `LinearAlgebra.MatInv` | rig/da.py:55-70 | a returned matrix is a left inverse on every vector; none is returned only when some nonzero vector is sent to zero |
| `LinearAlgebra.InverseHasNoKernel` | rig/da.py:55-70 | the two outcomes of the inversion exclude each other |
| `Vandermonde.RootBound` | rig/da.py:73-76 | a polynomial with as many distinct roots as coefficients is zero |
| `Vandermonde.Nonsingular` | rig/da.py:73-76 | any k distinct rows of the matrix send no nonzero vector to zero |
| `Vandermonde.InverseUsesAll` | rig/da.py:114-126 | the inverse of any k rows has no zero in its last row, so every chosen shard is used |
| `ErasureCode.GfCombine` | rig/da.py:91-97 | the accumulation loop computes the linear combination at every byte, or fails exactly when a used row has the wrong length |
| `ErasureCode.Encode` | rig/da.py:103-111 | shard i is the combination of the data rows by row i of the matrix; byte c of it is the sum over r < k of the r-th power of the point i + 1 times byte r * L + c of the body, zero past its end, L being the least length with k * L at least the body's |
| `ErasureCode.ShardIs` | rig/da.py:103-111 | a row satisfies that equation for i below 255 if and only if it is shard i |
| `ErasureCode.ChosenSmallest` | rig/da.py:118-118 | the chosen indices are the k smallest |
| `ErasureCode.Reconstruct` | rig/da.py:114-126 | on any dictionary: fails exactly with too few shards, with a chosen index of 255 or more, or with chosen shards of unequal length (a single byte is stretched); otherwise returns any body of the given length for which the chosen shards satisfy the equation of `Encode` |
| `ErasureCode.RoundTrip` | rig/da.py:103-126 | any k of the n shards, in any choice, give every body back byte for byte |

## Left out

- `convict`, `best_head`, `settled_height` and `adopt_checkpoint`: conviction is enforced only for direct children and tips, so the engine is modelled without it.
- The memo of verified delta hashes: it changes cost, not verdicts.
- PagedValidator.FollowChain: only chains that grow nothing, because after a block that grows a page the source does not extend its page offsets.
- Header, lottery, lane, score, sketch and set-root rules: part of the opaque weight-free check; they would only add easy members.
- Sestrian.IsMachine: page initialisation is any function of the right length, of which page_init is one.
- StallReached.StallReachable: windows of more than one block, and quorums of more than one proposer.
- PageTableLaw.RunLaw: expert indices are not claimed to stay below `e_max`, because the fold has no such guard.
- Availability sampling, its detection probability and the Merkle commitment over shards: statistics, and an instance of the page tree.
- TokenLedger.TokenLedger.ApplyReward: the legacy list of data addresses holds at most the genesis contributor, as its one caller passes it.
- TokenLedger.TokenLedger.ApplyTx: wallets are identified with their public keys, so colliding addresses do not arise; unused entry fields (size, media type, availability root) are checked but not stored.
- Healing among more than two nodes, the mempool, transaction gossip, block proposal and the in-flight queues of the network simulator: `Gossip` starts from delivered blocks.
- Fraud.Verify: the reasons for invalid evidence about transactions and about bodies are each one value.
- Pre-v1 branches of block validation and construction; floating-point training, scoring and attribution; networking, storage and command-line code.
- Mirrors of the same rules in the other language (`node/core/src/capacity.rs`, `fraud.rs`, `lanes.rs`): they would repeat the same proofs.
