# Proofs about the proof pipeline

A Dafny model of the solver's proof pipeline and proofs of what it promises. Everything is judged against one
abstract game (`Game.dfy`): positions, a move generator `legal`, `play`, and a static classification `terminal`
that is kept separate from `legal`, because rule draws occur in positions that still have moves. `Forced(p, o, n)`
says that the side to move has the decisive result `o` within `n` plies, `Holds(p, o)` that it has it at all. The
theorems quantify over all games; a theorem that needs more says so: `Sane` (a move generator), `Injective` (a hash
names one position), `Ranked` (play is finite, because positions carry the halfmove clock and irreversible moves
run out).

What search, workers, snapshots and files may answer is arbitrary: fill searches, memory checks, worker results,
job outcomes, crashes and restarts are functions or schedules the theorems quantify over.

| component | files |
|---|---|
| game, lists, arena tree | `Game`, `Lists`, `Tree` |
| tree validator: recursive report, stack machine, soundness | `Validate`, `ValidateMachine`, `ValidateSound` |
| tree worker: events, index, reconciling | `Worker`, `WorkerInvariant`, `WorkerMachine`, `WorkerTidy` |
| canonical rebuild and finalisation | `Rebuild`, `RebuildFaithful`, `RebuildResult`, `RebuildMachine`, `Finalize`, `WorkerLoop`, `WorkerDump` |
| reconstruction walk and the end-to-end theorem | `Walk`, `Walker`, `WalkAppend`, `WalkReplay`, `Reconstruct` |
| path-keyed merge | `Paths`, `PathMerge`, `PathDepth`, `PathOrder`, `PathSame`, `PathTruth`, `PathShards`, `PathSkeleton`, `SkeletonClean`, `MergeResult`, `ShardLoad`, `ShardFold` |
| incremental fold and the store validator | `Fold`, `FoldLoad`, `FoldWrite`, `FoldRun`, `FoldStore`, `FoldOnce`, `FoldConfluence`, `FoldVerify`, `FoldVerdict`, `FoldTrust`, `FoldAccept` |
| implied flips: fixpoint, verifier, exact marks | `Flip`, `FlipFixpoint`, `FlipVerify`, `FlipExact`, `FlipHidden` |
| retrograde tables and the memoised prover | `Retrograde`, `RetrogradeSweep`, `RetrogradeBuild`, `Prover` |
| campaign master and worker results | `CampaignTrie`, `Campaign`, `CampaignMaster`, `CampaignRun` |
| harvest frontier | `Frontier`, `FrontierBatch`, `FrontierRun`, `FrontierState`, `FrontierEnds`, `FrontierRevisit`, `FrontierOrphan`, `FrontierStall`, `FrontierTruth` |
| binary formats | `Bytes`, `ProofCodec`, `ProofReader`, `ProofRound`, `Snapshot`, `SnapshotReader` |

Code that updates state in place is a class or a method over arrays, proved against a specification function;
what is promised is then proved about that function. `dafny verify dfyconfig.toml` checks the project.

## Where the code and its documentation differ

- The tree validator compares static outcomes at depth-0 nodes only (`src/proof_tree/validate.rs:245-260`). What it
  accepts is true exactly when no interior node sits on a position the rules end differently
  (`ValidateSound.ClaimsTrueIff`, `ValidateSound.OutcomesTrueIff`); `ValidateSound.AcceptedButFalse` is an accepted
  false tree. A depth-0 node with children makes it skip the depth checks above it.
- A `DepthInconsistent` defect carries the path of the node's parent, since the path is popped first
  (`src/proof_tree/validate.rs:340-372`).
- Reconciling drops a Win's only Loss child when its depth is `u32::MAX` (`WalkAppend.OnlyLossKept`), so the
  end-to-end theorem asks for smaller depths.
- The exit of `finalize_tree` for unexpanded internal nodes (`src/proof_tree/worker.rs:526-540`) cannot be reached.
- `Exact` marks of implied wins need not be minimal: `FlipHidden.ExactNotMinimal` is a store that a fold could write,
  and `FlipExact.ExactMeansMinimal` gives the condition on the replies.
- `write_fold_delta` refuses a stored open row that a new shard proves (`examples/proofdb/merge/fold.rs:558-575`),
  while the module text describes updating existing rows. `FoldOnce.FoldShards` says exactly when a fold is refused.
- `verify_db` accepts a bounded row at an ended position: a stalemate stored as a loss
  (`FoldTrust.StalemateAccepted`). It also accepts a root at ply -1 whose Win rests on an unmoved lost child, the same
  position (`FoldTrust.UnmovedAccepted`).
  `FoldTrust.VerifiedTrueIff` gives the exact condition.
- `load_shard` does not ask whether the positions inside the tree have ended (`examples/proofdb/merge/fold.rs:173-247`):
  `ShardLoad.LoadedButFalse` is a loaded shard with a false claim, and `ShardLoad.LoadedTrueIff` says exactly when the
  claims of a loaded shard are true.
- The frontier text says that a candidate completes at most once and the loop cannot stall
  (`examples/proofdb/walk.rs:84-87`). A child that is censored for no evals is visited for ever
  (`FrontierStall.StallRun`). An iteration makes progress unless it is a free censor of a node that is no candidate
  (`FrontierRun.EffectLower`), and a batch below its eval cap is endless if and only if it reaches a child with a record
  that every later job censors for nothing (`FrontierEnds.EndlessIff`).
- The frontier text calls a visit at or under a node or-closed in the session unreachable
  (`examples/proofdb/walk.rs:422-425`). An expansion does visit such a node itself, with truthful jobs
  (`FrontierStall.RevisitRun`); nothing strictly below one is ever visited (`FrontierRun.RunWalkBatch`). Some session
  from a store visits an or-closed node if and only if one of its records is an orphan (`FrontierOrphan.RevisitsIff`):
  an unworked candidate two or more plies below the scope root, second player to move, whose parent and whose scope root
  have no record, with no worked record on its line, on a line that leaves the stored rows at the scope root.
- The snapshot reader takes code 0 and the sentinel 0xFFFF both as the null move: writing back what was read gives the
  same bytes exactly for files without code 0 (`SnapshotReader.RewriteIff`), and another file reads as the same contents
  exactly if some record holds the null move (`SnapshotReader.TwinIff`).
- A dumped proof tree loses its hashes, and a FEN that is not ASCII is not read back (`ProofCodec.FenBack`).
- The pawn class has no code among cross references (`Retrograde.CrossUnpacks`).
- A rejected worker result may already have passed facts on; they are true (`CampaignTrie.VerifyAndMerge`).
- Recomputed bounds never exceed a depth some shard stores in 32 bits, so their additions cannot wrap
  (`MergeResult.BoundsAreSmall`).

## Model

| member | source | states |
|---|---|---|
| Validate.ReportEmptyIffClean | src/proof_tree/validate.rs:131-382 | the defect report of a subtree is empty exactly when every replayed node meets the proof rules, closes no cycle and has the depth its children prove |
| ValidateMachine.ValidateProofTree | src/proof_tree/validate.rs:131-382 | the explicit-stack do/undo replay returns the recursive report, for any linked arena; an unparsable root position gives one defect |
| ValidateMachine.VisitReports | src/proof_tree/validate.rs:165-372 | replaying one subtree appends its report, restores board, path and hash set, and writes only that subtree's depth entries |
| ValidateSound.ClaimsTrueIff | src/proof_tree/validate.rs:245-372 | on an accepted subtree whose leaves are its depth-0 nodes every outcome is forced within the stored depth if and only if interior positions have not ended differently |
| ValidateSound.OutcomesTrueIff | src/proof_tree/validate.rs:245-372 | on any accepted tree, also with children hidden below depth-0 nodes, the outcomes are true if and only if interior positions have not ended differently |
| ValidateSound.AcceptsOnlyProofs | src/proof_tree/validate.rs:131-382 | an empty report means the root outcome holds, and is forced within the root depth when depth 0 marks the leaves |
| ValidateSound.AcceptedButFalse | src/proof_tree/validate.rs:245-260 | a concrete tree the validator accepts at a position the rules call a draw |
| Tree.AddNodeChildren | src/proof_tree/node.rs:72-98 | a new node heads its parent's sibling chain and every other chain is unchanged |
| WorkerInvariant.RunKeeps | src/proof_tree/worker.rs:212-337 | after any run of events the child index is exactly the attached edges and every realised parent keeps only children that prove it |
| WorkerInvariant.LookupIsScan | src/proof_tree/worker.rs:238-252 | at any attached node an index lookup answers what a scan of the sibling chain answers |
| WorkerInvariant.ReconcileAttached | src/proof_tree/worker.rs:271-337 | reconciling detaches exactly the subtrees of the children that are not kept |
| WorkerMachine.ProofTreeWorker.ProcessEvent | src/proof_tree/worker.rs:212-236 | the in-place worker does to its arena and index what the specification of one event does, and ignores events after the memory flag |
| WorkerMachine.ProofTreeWorker.RemoveChildIndexSubtree | src/proof_tree/worker.rs:326-337 | exactly the index entries of a subtree's edges disappear |
| RebuildMachine.BuildExpandedIndex | src/proof_tree/worker.rs:351-394 | the twin index holds, for each hash and outcome, the first best expanded node and nothing else |
| RebuildMachine.RebuildTree | src/proof_tree/worker.rs:438-511 | the stack rebuild terminates although twins can form cycles and computes the recursive canonical copy |
| RebuildResult.HeightBounded | src/proof_tree/worker.rs:445-511 | no node of the rebuilt tree is deeper than the number of distinct hashes plus one |
| RebuildResult.Alternates | src/proof_tree/worker.rs:450-511 | Win and Loss alternate along every edge of the rebuilt tree |
| RebuildResult.FinishedDepths | src/proof_tree/worker.rs:512-522 | the installed tree stores exactly the bottom-up depths, so depth 0 marks exactly its leaves |
| Finalize.FinalizeTree | src/proof_tree/worker.rs:415-569 | the installed arena satisfies the worker invariant again, the exit for unexpanded nodes is unreachable, and the defect count is the validator's |
| Finalize.RunWorker | src/proof_tree/worker.rs:168-210 | however the events before the first finalise query split into received and drained ones, the worker ends with the finalised tree of all of them |
| WorkerLoop.Serve | src/proof_tree/worker.rs:168-236 | over any sequence of events and finalise queries, also events after a finalisation, every state keeps the worker invariant, every message has its specified effect and reply, and the worker exits exactly at a query before the root is realised |
| WalkAppend.OnlyLossKept | src/proof_tree/worker.rs:271-324 | a Win's only child, a Loss, survives reconciling if and only if its depth is below the saturation value |
| WalkReplay.WalkReplayed | src/proof_tree/worker.rs:212-324 | replaying the events of a completed walk gives an arena that shows the walked proof, with every node proven |
| Walker.Walker.Visit | src/reconstruct/walker.rs:148-247 | whatever snapshot and fill search say, a resolved outcome is proven by the walked term, its events are that term's preorder, board, path and prefix are restored on success and failure, and every classified visit is counted once |
| Walker.Walker.FillHole | src/reconstruct/walker.rs:280-362 | the bounds tried, the budget kept and the decision are those of iterative doubling; a hole is given up as unfillable only after a finished search at the cap |
| Walker.ClassifyNode | src/reconstruct/mod.rs:278-298 | exact hit, then any clock, then the repetition context, then absent |
| Reconstruct.WalkEndsClean | src/proof_tree/worker.rs:415-522 | a completed walk, processed and finalised in whatever interleaving, leaves a tree that is a proof of the root |
| Reconstruct.RunReconstruction | src/reconstruct/walker.rs:41-138 | end to end: a root outcome is true; an Ok walk with depths below u32::MAX and no memory limit returns a tree; that tree has no defect, the walk's outcome, and a root depth within which it is forced |
| ShardLoad.LoadShard | examples/proofdb/merge/fold.rs:173-247 | a shard is loaded exactly when its digest, validation, outcome, path and hashes pass |
| ShardLoad.LoadedTrueIff | examples/proofdb/merge/fold.rs:173-247 | at the replayed position the claims of a loaded shard are true within their depths if and only if the rules end no inner position of its tree otherwise |
| ShardLoad.LoadedButFalse | examples/proofdb/merge/fold.rs:192-206 | a shard that passes every check although its position is a draw by the rules |
| ShardLoad.LoadedGood | examples/proofdb/merge/fold.rs:173-247 | a loaded shard without ended positions on its path and inside its tree is one the merge theorems apply to |
| ShardFold.LoadFoldVerify | examples/proofdb/merge/fold.rs:664-862 | from shard files to a verified store: refused exactly when a known tag has other bytes, a new shard fails a check, or a new shard proves a stored open row; otherwise the verdict counts the table and every claim in it is true |
| PathMerge.PathTree.GraftPath | examples/proofdb/merge.rs:105-140 | the ancestor chain exists afterwards, tagged, and nothing else is recorded |
| PathMerge.PathTree.OverlaySubtree | examples/proofdb/merge.rs:142-208 | the overlay succeeds if and only if every shard node is decisive and no path gets two outcomes; then exactly the shard's facts are added and the counters count new and upgraded nodes |
| PathDepth.FindBounds | examples/proofdb/merge/depth.rs:66-168 | the memoised recomputation returns the bottom-up bounds, or refuses exactly when some node fails its checks |
| PathOrder.AssignRows | examples/proofdb/merge/depth.rs:52-64 | row ids and row order are inverse permutations of the lexicographic walk |
| PathOrder.RowsFollowPaths | examples/proofdb/merge/depth.rs:173-183 | one row id is below another if and only if its path is lexicographically smaller, so parents precede children |
| PathSame.MergeShards | examples/proofdb/merge.rs:142-208 | a merge succeeds if and only if the union of all facts is consistent and passes the checks; the result records exactly that union with its bounds and rows |
| PathSame.MergeBothWays | examples/proofdb/merge/depth.rs:40-64 | any order of the same shards, with or without repetitions, fails alike or gives the same rows: path, outcome, provenance, bound, status |
| PathTruth.BoundSound | examples/proofdb/merge/depth.rs:66-168 | every proven merged node's outcome is forced within its recomputed bound |
| PathTruth.BoundShrinks | examples/proofdb/merge/depth.rs:1-13 | more facts never change a proven outcome and never raise a bound |
| PathShards.NodeForced | examples/proofdb/merge/fold.rs:192-206 | every node of a validated shard is forced within its stored depth at its replayed position |
| PathShards.BoundAtMost | examples/proofdb/merge/depth.rs:40-47 | a merged bound is at most the depth any contributing shard stores |
| PathShards.GoodMergeable | examples/proofdb/merge.rs:142-208 | validated shards always merge: no contradiction branch can be taken |
| SkeletonClean.SkelClean | examples/proofdb/merge/skeleton.rs:25-82 | the skeleton of a proven node of a true tree is a proof the validator accepts at the node's position |
| MergeResult.MergeGood | examples/proofdb/merge/fold.rs:823-842 | merging validated shards returns a result whose proven nodes are true within their bounds, bounded by every shard, and any proven node's reassembled skeleton passes the validator again |
| FoldLoad.LoadStandingTree | examples/proofdb/merge/fold.rs:263-520 | a loaded store is a tree of legal moves with one node per row; a table that is such a tree is always loaded |
| FoldWrite.WriteFoldDelta | examples/proofdb/merge/fold.rs:545-653 | refused exactly when a stored row disagrees with its recomputed node; otherwise the table is the finalised tree, old rows keep ids and links, and unchanged rows are not written |
| FoldWrite.AssignIds | examples/proofdb/schema.rs:81-96 | loaded nodes keep their ids, new ones continue after the largest in path order |
| FoldOnce.FoldShards | examples/proofdb/merge/fold.rs:664-862 | a fold is refused exactly when a known tag has other bytes or a new shard proves a stored open row; otherwise the table is the finalised tree of all shards so far, ids are stable, parents precede children, and a fold without new shards changes nothing |
| FoldConfluence.StoresAgree | examples/proofdb/merge/fold.rs:17-23 | two stores of the same shards, folded in whatever order and instalments, say the same of every path |
| FoldConfluence.FoldBothWays | examples/proofdb/merge/fold.rs:664-862 | folding in two instalments succeeds exactly when no stored open row is newly proven, and then agrees path by path with one fresh fold |
| FoldVerify.DbVerifier.Visit | examples/proofdb/verify.rs:235-455 | the do/undo walk restores the board, never counts a row twice, and without a defect every row it reached passes all checks at its replayed position |
| FoldVerdict.VerifyDb | examples/proofdb/verify.rs:175-233 | the verdict is sound if and only if some assignment of positions passes every check for every row, with exact counts of rows, proven and open |
| FoldTrust.VerifiedTrueIff | examples/proofdb/verify.rs:338-440 | every claim of an accepted store is true within its bound if and only if bounded rows are open or end as they say and no Win at ply -1 rests on a child without a move |
| FoldTrust.StalemateAccepted | examples/proofdb/verify.rs:391-432 | a stalemated position stored as a loss in three is accepted |
| FoldTrust.UnmovedAccepted | examples/proofdb/verify.rs:259-291 | an accepted store whose root, at ply -1, claims a win at a lost open position |
| FoldAccept.StoreAccepted | examples/proofdb/verify.rs:175-455 | every table a fold commits is accepted, and each of its claims is true |
| FoldAccept.FoldAndVerify | examples/proofdb/merge/fold.rs:844-862 | folding and then verifying finds every committed table sound |
| Flip.SummariseMonotone | examples/proofdb/flip/fixpoint.rs:96-164 | sharper replies give a sharper claim: no polarity changes, no bound grows |
| FlipFixpoint.Analysis.Solve | examples/proofdb/flip/fixpoint.rs:42-93 | over replayable rows no defect error occurs, at most open rows plus one passes run, and the claims are exactly the bottom-up recursion's |
| FlipVerify.VerifiedSound | examples/proofdb/flip/verify.rs:47-110 | a verified claim is true against any claim map, even a circular or invented one |
| FlipVerify.VerifiedIff | examples/proofdb/flip/verify.rs:22-110 | a derived claim is accepted if and only if no chain of implied claims below it passes the depth limit |
| FlipVerify.SolveAndVerify | examples/proofdb/flip/verify.rs:112-123 | converge, then verify from scratch: every claim is true and the verifier accepts all of them exactly within the depth limit |
| FlipExact.ExactMeansMinimal | examples/proofdb/flip/fixpoint.rs:123-150 | an exact claim is minimal in every game with these replies if and only if it is unsaturated and, for a win in more than three, every losing reply is exact |
| FlipExact.RealIsPlausible | examples/proofdb/flip/fixpoint.rs:96-122 | no game reports a list of replies outside the condition the exactness theorem asks for |
| FlipHidden.ExactNotMinimal | examples/proofdb/flip/fixpoint.rs:126-140 | a store of the shape a fold writes whose converged analysis calls a win in three an exact win in five |
| Retrograde.IndexBijection | examples/egtb_gen3/table.rs:61-73 | a number is the index of a placement if and only if the placement is what it decodes to |
| Retrograde.CrossUnpacks | examples/egtb_gen3/table.rs:460-497 | a packed cross reference comes back if and only if its class is one of the first four |
| RetrogradeBuild.BuildRows | examples/egtb_gen3/table.rs:286-315 | the nested loops meet every index once and in order; every open entry's packed row is exactly its children in move order, every other row is empty |
| RetrogradeBuild.BuildTable | examples/egtb_gen3/table.rs:225-372 | one class built from the rules and the finished tables it depends on: WIN and LOSS exactly where the position has that value, INVALID exactly for unrepresentable placements, DRAW elsewhere |
| RetrogradeBuild.Generate | examples/egtb_gen3/table.rs:219-372 | the five classes in order, the pawns over the four finished tables: every table is exact |
| RetrogradeSweep.SweepEntry | examples/egtb_gen3/table.rs:321-369 | one entry of a pass keeps the table true and complete so far, and records its pass |
| RetrogradeSweep.Iterate | examples/egtb_gen3/table.rs:317-372 | whatever the index order the sweep ends, within undecided plus one passes, with WIN and LOSS exactly where they are the value and no recorded pass above the true distance |
| RetrogradeSweep.StableExact | examples/egtb_gen3/table.rs:364-372 | a table that no pass would change is exact |
| Prover.Searcher.Prove | examples/egtb_gen3/prove.rs:51-85 | from any right memo the answer is win or loss exactly when forced within the depth, and the memo stays right |
| Prover.CheckSamples | examples/egtb_gen3/main.rs:150-213 | confirmed, inconclusive and contradicted samples are counted exactly; a defect is reported only for a wrong entry |
| Prover.DefectIsReal | examples/egtb_gen3/main.rs:181-188 | a confirmed defect means a table entry that is not the position's value |
| Prover.EventuallyConfirmed | examples/egtb_gen3/main.rs:181-188 | every WIN and LOSS of an exact table is confirmed from some depth on |
| Prover.CrossValidate | examples/egtb_gen3/main.rs:150-213 | the number of disagreements with the converged table is zero, whatever is sampled |
| Prover.GenerateAndCheck | examples/egtb_gen3/main.rs:150-213 | generating all classes and cross-checking one of them gives no defect |
| CampaignTrie.VerifyAndMerge | examples/campaign/verify.rs:38-194 | whatever a worker sends: accepted if and only if the job's path is legal and the trie of the events proves its position; an accepted outcome is the trie's and true; every fact passed on is true |
| Campaign.SelectLeaf | examples/campaign/state.rs:113-135 | the chosen leaf is open and unlocked under an undecided child and least by the selection key; none only if none qualifies |
| Campaign.RefreshOk | examples/campaign/state.rs:70-92 | refreshing a child from true leaves keeps its classification true |
| CampaignMaster.Master.MergeResult | examples/campaign/state.rs:670-832 | a drained result, wrong, late or repeated, keeps the table true; it is matched by lock or echoed path and its leaf unlocked; a verified claim settles that leaf as the trie says, no other verdict changes, an unverified claim aborts, and a root outcome is only set on a true resolution |
| CampaignMaster.Master.Dispatch | examples/campaign/state.rs:838-911 | nothing happens exactly if the worker holds a lock or no leaf is eligible; otherwise the eligible leaf with the least selection key is locked under a fresh job number, and nothing else changes |
| CampaignRun.RunCampaign | examples/campaign/state.rs:591-945 | over any schedule of results, deaths, sweeps, dispatches, checkpoints and restarts from any stored dump every table is true, verdicts only progress within a session, no leaf is won in one table and lost in another, and a declared root verdict is true |
| Frontier.WalkFrontier.OrCloseParent | examples/proofdb/walk.rs:402-420 | the parent is closed exactly if it is in scope, the first player moves there, and it is not complete; its subtree leaves candidacy |
| Frontier.WalkFrontier.Admit | examples/proofdb/walk.rs:426-438 | a record becomes a candidate exactly when it is in scope and under no closed node; no candidate is ever under one |
| FrontierBatch.WalkBatch.Iterate | examples/proofdb/walk/driver.rs:204-307 | an iteration takes the first candidate, or the scope root, and does the search visit, the expansion of the least unhandled child, or the complete rule, with the exact new state |
| FrontierBatch.WalkBatch.Visit | examples/proofdb/walk/driver.rs:102-166 | a visit books a censor, a draw or a decision exactly; a decision never meets a stored shard of the same path |
| FrontierRun.RunWalkBatch | examples/proofdb/walk/driver.rs:178-310 | over any run no visit is at or under a proven, drawn, decided or statically or-closed node, nor strictly below one or-closed in the session; caps hold and exhaustion means no candidate and a settled root |
| FrontierEnds.RunCapped | examples/proofdb/walk/driver.rs:195-310 | with an eval cap a batch that never reaches a child censored for nothing for ever stops by itself |
| FrontierEnds.EndlessIff | examples/proofdb/walk/driver.rs:195-310 | below its eval cap a batch goes on for ever if and only if it reaches a recorded child that is searched next and that every later job censors for nothing |
| FrontierRun.EffectLower | examples/proofdb/walk/driver.rs:195-307 | an iteration that goes on lowers, lexicographically, evals left, unresolved nodes, candidates if and only if it is not a free censor of a node that is no candidate; that one leaves all three as they are |
| FrontierStall.StallRun | examples/proofdb/walk/driver.rs:130-134 | for every n a batch that spends no eval in n jobs and never stops |
| FrontierStall.RevisitRun | examples/proofdb/walk/keys.rs:130-141 | three iterations with truthful jobs, from a store with an orphan, that search a node already or-closed |
| FrontierOrphan.RevisitsIff | examples/proofdb/walk/driver.rs:250-300 | over a store whose candidates replay, some session searches a node or-closed in it if and only if some candidate is an orphan |
| FrontierRevisit.NoOrphanNoRevisit | examples/proofdb/walk.rs:422-438 | without orphans no session, whatever its jobs answer, searches an or-closed node |
| FrontierOrphan.RootedNoRevisit | examples/proofdb/walk.rs:84-90 | a session over records whose parents are all handled searches no or-closed node |
| FrontierTruth.RunKeepsFacts | examples/proofdb/walk/driver.rs:102-166 | with truthful jobs and rows every closed node has, in every reachable state, the value it was closed for |
| FrontierTruth.StartsTrue | examples/proofdb/walk.rs:215-294 | a session over a true store, true draws and open records starts with true facts |
| FrontierTruth.PruningKeepsValue | examples/proofdb/walk.rs:361-396 | any valuation that agrees with the known facts gives the scope root its true value, whatever it says below closed nodes |
| ProofReader.ReadProofTree | src/proof_tree/binary.rs:82-244 | exactly the layouts of well-formed dumps are accepted, and the result is the derived tree |
| ProofRound.DumpThenLoad | src/proof_tree/binary.rs:49-244 | a realised tree comes back, hashes aside, if and only if its links, alternation and depths are regular and its FEN is one ASCII line |
| ProofRound.DecodedRegular | src/proof_tree/binary.rs:150-244 | every accepted dump decodes to a regular tree: chains list all children, outcomes alternate, depths are bottom-up |
| ProofRound.FinishedRegular | src/proof_tree/worker.rs:438-522 | what finalisation installs is regular: chains list all children, outcomes alternate, depths are bottom-up |
| WorkerDump.FinaliseAndDump | src/proof_tree/binary.rs:49-244 | finalise, dump, load: the installed tree comes back, hashes aside, exactly when its FEN is one ASCII line, and is still accepted if it was |
| ProofRound.DumpKeepsProof | src/proof_tree/binary.rs:49-244 | a validated tree is still accepted after a dump, with the same root outcome and depth and depth 0 exactly at its leaves |
| Snapshot.PrefixFree | src/tt_snapshot/mod.rs:159-222 | no written snapshot is a proper prefix of another |
| SnapshotReader.ReadSnapshot | src/tt_snapshot/reader.rs:18-146 | exactly the layouts of well-formed snapshots are accepted, with nothing after the last record |
| SnapshotReader.WriteThenRead | src/tt_snapshot/mod.rs:159-222 | the bytes of a table give back exactly its solved entries and its current unsolved ones in table order; every proper prefix and every extension is refused |
| SnapshotReader.RewriteIff | src/tt_snapshot/mod.rs:138-157 | writing what was read gives the same bytes if and only if no record has code 0 |
| SnapshotReader.TwinIff | src/tt_snapshot/mod.rs:138-157 | another well-formed file reads as the same contents if and only if some record holds the null move and code 0 is well formed |

## Left out

- Chess rules, FEN and UCI texts: positions and moves are codes; a parsed FEN is an optional position, and UCI order is the order of move codes in the frontier.
- The DF-PN driver, transposition-table storage, preflight and win prover: their answers are arbitrary inputs.
- SQLite, JSON, SHA-256 and files: a store is a list of rows, a digest a number, a transaction one step; texts outside a column's domain are not representable.
- Provenance as comma-joined text: a set of tags; a tag that contains a comma or is empty is not modelled.
- The `shards` and `meta` tables beyond tag and digest, `check_meta`, canonical dumps, manifests, sidecars and directory scans.
- Order of hash-map iteration: results that depend on it are stated for any order; the order of several defects of one store row is not modelled.
- Node ids beyond 32 bits in the worker, where the code asserts.
- FoldTrust.VerifiedTrueIff: asks for stored bounds below 2^32, as every writer stores them; larger bounds are truncated by the check, which the model does too.
- Bounds near the largest 64-bit integer in `verify_db`, where the addition would overflow.
- Worker depths in campaign results: outcomes only; advisory numbers are kept but not constrained.
- FrontierBatch.WalkBatch.Visit: a failed censor commit ends the session and is not modelled; a job that fails to export ends the process.
- FrontierOrphan.RevisitsIff: asks that candidates replay, because a record that does not ends the batch as a defect, and that play is finite.
- FrontierEnds.EndlessIff: speaks of the eval cap and the game only; job caps, the stop file and the clock end any batch.
- Wall clocks and memory estimates: the stop file, the clock and the memory flag are arbitrary inputs.
- Boards of the endgame tables: how a child board is read off as an ended position or a placement is a parameter of the generator, assumed right.
- Board undo after a failed trie visit: the code leaves the board where it is, and so does the model.
- `extract_ppv`, `validate_ppv`, tree signatures, the JSON-lines export, census texts and printing: easy by comparison.
