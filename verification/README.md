# omd: a verified model of its core

`omd` tracks ranges of files as chains of hash-linked commits, links between ranges, and the
obligations that follow when a range changes. This project models the parts of it that are hard to
get right and proves what they promise. `dafny verify dfyconfig.toml` checks everything.

| files | what they model |
|---|---|
| `Graph`, `Tarjan`, `Layering`, `LinkStrata` | link strata: the iterative Tarjan search with its explicit call stack, the condensation, and the longest-path relaxation |
| `Records`, `Chains`, `StoreState` | commit records and chains, the mutable state, the identity index that opening a store checks |
| `Pipeline`, `Index`, `PipelineLaws`, `CommitMeans`, `Store` | the commit pipeline: what each operation publishes (as functions), when the index survives it, what a commit comes to in terms of the store before and after, and the store object that updates itself in place |
| `Blocks`, `BlockLaws`, `ResetBlocks` | ATOMIC blocks: the forward stack, the backward scan, the open blocks of the state, and what a reset does to them |
| `Resets`, `ResetLaws`, `ResetMeans`, `ResetRun`, `Landings`, `Liveness` | reset: the walk, file snapshots, what is withdrawn, what it comes to in terms of the chains before and after, the command itself, which landings restore the ranges of their moment, endpoint liveness |
| `Gc` | garbage collection as a least closed set, and the command |
| `Imports`, `Runs` | whole runs of one store |
| `Federation`, `FederationLaws`, `FederationSound`, `Cross` | several stores with locks, sessions interleaved one file operation at a time, crashes anywhere; credentials for cross-store links |
| `Diff`, `RangeCheck` | edit scripts, verdicts on ranges, coordinate maps, the effective body of a range |
| `GitResolve` | the Git symlink resolver over a finite tree |
| `Bytes`, `CommitId`, `Preimage`, `PayloadFields` | commit-id preimages: framing, canonical JSON and a reader for both, commit validation |
| `Glob`, `CivilTime` | greedy glob matching; RFC 3339 instants and civil days |

Conventions. A key such as `range:<id>` is the pair `Key(kind, root)`; the empty string is "no
commit". A commit id drawn for a new commit is fresh (`Fresh`): no hash collision. One file write,
rename or removal is one atomic step. Functions give what an operation publishes; the methods of
`LockedStore` and `PeerStore` update fields in place, as the program does, and are proved equal to those
functions. Where the program walks a chain with the guard of 100000 commits, the model takes the limit
as a parameter and asks for chains within it; `Liveness.EndpointAlive` says what the guard does beyond it.

## What the proofs found

* The index survives a commit only under a condition (`PipelineLaws.AppendGuard`). A deleted file stays
  live, and a later commit on it that carries a path gives its chain a location that the state does
  not list: the store no longer opens (`PathRevivesTombstone`, `DeleteLeavesTombstone`).
* A link or adapt recorded at an object that is not live breaks the index (`LinkKeepsIndexIff`).
* Renames, deletes, links and adapts record no snapshot of the file's ranges. A file reset brings back the
  ranges of the moment its landing was made exactly when the landing is a source or marker commit or there
  was no range (`Landings.LandingRestoresIff`). Resetting a renamed file to its own tip is allowed and takes
  its ranges away (`ResetToRenameLosesRange`).
* A reset publishes the moved state before its own commit. The publication number of that state is new
  exactly when the object is gone (`ResetPublicationIff`).
* Reset never recomputes the open blocks. For an ordinary target they stay right exactly when the object had
  none open, and in general exactly when they fit where every moved object goes (`ResetBlocksFollowIff`).
  Going back over a BEGIN leaves it open in the state (`ResetOverBeginLeavesBlockOpen`) until the first END
  that closes nothing on the chain (`StaleBlockGoesIff`).
* A landing that is not an ancestor of the old tip withdraws every link made on the old chain, those of
  shared ancestors included (`SidewaysResetWithdrawsAll`, `WithdrawsOnlyAboveIff`).
* The place check of a file reset looks for content files whatever the file is, so an import can be reset
  exactly when its path is not tracked as content too (`ImportResetAllowedIff`). The converse danger, two
  imports at one place, cannot arise: imports never move (`ResetPlaceIsFree`).
* The comment on `persist_inbound` (src/records/cross.rs:102-103) says that repeating identical input reuses the
  record. The code refuses a file that exists (src/records/store.rs:1770-1785), so the second call fails
  (`Cross.StoreTwice`). The model follows the code.
* `commit_journal` accepts an audit patch on a note and the other way round (src/records/pipeline.rs:916-920); the
  index does not mind (`PatchAcceptedIff`, `JournalKeepsIndex`).
* `map_position` clamps without the shift gathered so far; it is exact precisely when nothing was
  clamped or the shift was zero (`MapPositionExactIff`, `ClampLosesShift`).
* A `*` in the matched text defeats the greedy matcher (`AgreesIffNoStar`, `StarInSegment`).
* Text search skips occurrences that overlap a reported one. Text and byte verdicts on a range agree, whatever
  surrounds it and becomes of it, exactly when no proper beginning of its text is also an end of it
  (`ModesAgreeIffNoBorder`, `TextMissesOverlap`).
* The canonical payload overwrites a note patch's own `kind` (`NotePatchKindIsLost`).
* A fraction of more than nine digits is read as that many whole nanoseconds. The instant is right exactly
  when all of them are zeros and nothing overflows (`ParseExactIff`, `LongFractionIsWrong`).

## Model

| member | source | states |
|---|---|---|
| Tarjan.Components | src/relations/linkhealth.rs:225-281 | for every graph the iterative search ends and gives two nodes one component exactly when each reaches the other; no edge goes to a higher component number |
| Tarjan.Explore | src/relations/linkhealth.rs:235-280 | one outer round of the search keeps the invariant, visits its root and forgets no node |
| Tarjan.EnterKeeps | src/relations/linkhealth.rs:241-248 | visiting a node keeps the search invariant: stack order, reachability from the call path, low-link bounds |
| Tarjan.LowerKeeps | src/relations/linkhealth.rs:250-261 | lowering a low-link to the index of a stacked node keeps the invariant |
| Tarjan.RetireKeeps | src/relations/linkhealth.rs:265-279 | leaving a node that is not a component root keeps the invariant |
| Tarjan.PopKeeps | src/relations/linkhealth.rs:266-276 | popping down to a root whose low-link is its own index makes exactly its component, and keeps the invariant |
| Tarjan.CloseComponent | src/relations/linkhealth.rs:266-276 | popping the stack down to a component root keeps the search invariant with that root retired, and changes no index or low-link |
| Layering.Condense | src/relations/linkhealth.rs:283-291 | the condensed graph has an edge exactly where a link crosses from one component to another |
| Layering.Relax | src/relations/linkhealth.rs:301-335 | the relaxation ends and gives each component the length of the longest path to it |
| Layering.Round | src/relations/linkhealth.rs:306-335 | one round makes every component with a path one longer exact; a round that changes nothing has reached the fixed point, and at most one round per component changes anything |
| Layering.StableIsLongest | src/relations/linkhealth.rs:301-335 | a fixed point of the relaxation is the longest-path length |
| LinkStrata.ComputeStrata | src/relations/linkhealth.rs:210-342 | the stratum of an endpoint is the number of steps in the longest cascade of strictly upstream endpoints that ends at it |
| LinkStrata.CollectKeys | src/relations/linkhealth.rs:211-216 | the keys are exactly the endpoints mentioned, each once |
| LinkStrata.Adjacency | src/relations/linkhealth.rs:217-223 | the adjacency lists represent exactly the links |
| LinkStrata.UpstreamRaises | src/relations/linkhealth.rs:200-209 | an endpoint that leads to another and not back has a lower stratum |
| LinkStrata.CycleShares | src/relations/linkhealth.rs:200-209 | endpoints of one cycle share a stratum |
| LinkStrata.LinkKeepsOrRaises | src/relations/linkhealth.rs:200-209 | a link never lowers the stratum, and keeps it exactly when it lies on a cycle |
| LinkStrata.RootsAreZero | src/relations/linkhealth.rs:301-335 | stratum 0 means nothing strictly upstream |
| LinkStrata.StratumUnique | src/relations/linkhealth.rs:200-209 | the strata are determined by the links alone |
| Chains.AuthoritativeObject | src/relations/identity.rs:422-490 | gives the facts folded from the chain exactly when the tip has one; otherwise an error for a cycle, a gap or no commit, whichever the walk back meets |
| Chains.ChainRoot | src/relations/identity.rs:495-513 | gives the first commit of the chain exactly when there is one |
| Chains.ChainDistinct | src/relations/identity.rs:425-438 | no commit occurs twice on a chain |
| StoreState.ValidateIdentityIndex | src/records/store.rs:1056-1181 | accepts a store exactly when the index invariant holds |
| StoreState.CollectMounted | src/records/store.rs:1062-1072 | finds a range that is mounted twice, or gives the set of mounted ranges |
| StoreState.ParentOf | src/relations/node.rs:134-141 | the parent of a range is the one mount that lists it |
| StoreState.CheckTip | src/records/store.rs:1073-1156 | the checks on one live object accept it exactly when its projections agree with its chain |
| StoreState.CheckTips | src/records/store.rs:1073-1156 | the pass over all live objects also finds two of one class at one place |
| Store.LockedStore.CommitTo | src/records/pipeline.rs:195-672 | commit_source and commit_marker accept exactly the payloads and places that fit and refuse each other call for a reason that holds; the record sits on the old tip with the content if observed, the innermost block of the parent file and the tips of its ranges; tip, place, pending changes one and two hops away and open blocks move as told, and nothing else |
| CommitMeans.AppendIs | src/records/pipeline.rs:293-438 | every source or marker commit that goes through leaves that record and that state |
| CommitMeans.AcceptsIff | src/records/pipeline.rs:333-371 | and goes through exactly when its payload is allowed, with the block it joins, and a new object has a free path or a live mount; each error says what did not fit |
| CommitMeans.FirstCommitKeepsIndexIff | src/relations/identity.rs:440-466 | a first commit leaves a store that opens exactly when the object is named after it, its kind starts such an object, and a source commit of kind import finds no import at its path |
| Store.LockedStore.FormRecord | src/records/pipeline.rs:293-331 | the record has the node's tip as predecessor, the block of the parent file, and the tips of the file's ranges |
| Store.LockedStore.ChildTips | src/records/pipeline.rs:322-331 | collects exactly the tips of the live ranges mounted under the file |
| Store.LockedStore.CheckFirst | src/records/pipeline.rs:345-371 | refuses a first commit exactly for a missing path, a taken place, a missing mount or a mount that is no live file |
| Store.LockedStore.MoveBlocks | src/records/pipeline.rs:428-437 | a BEGIN opens a block, an END closes the innermost one |
| Store.LockedStore.NextState | src/records/pipeline.rs:341-438 | the whole new state of a source or marker commit |
| Store.LockedStore.ObligeDownstream | src/records/pipeline.rs:378-407 | adds the commit to the pending changes of the links one and two hops away and of no others |
| Store.LockedStore.CommitLifecycle | src/records/pipeline.rs:685-760 | goes through exactly for a rename of a content file to a path without one and for a delete of a content file; the file has one more commit and is at the target or nowhere; each refusal says why, and changes nothing |
| Store.LockedStore.LinkObjects | src/records/pipeline.rs:767-877 | a local link is published exactly when both ends are live ranges or journals at retained versions whose chains have their roots; it stands with just the ends and versions asked for, and no other link changes |
| Store.LockedStore.PublishLink | src/records/pipeline.rs:816-877 | a link commit advances its node and makes the link effective with the terms given, with no pending change of its own |
| Store.LockedStore.AdaptLink | src/records/pipeline.rs:1325-1422 | goes through exactly with changes for a link in effect, and takes exactly the selected changes off exactly that link |
| Store.LockedStore.CommitToJournal | src/records/pipeline.rs:888-979 | an init starts the kind of journal it names, a patch extends any live journal, with a target exactly for notes; anything else is refused for a reason that holds and changes nothing |
| Store.LockedStore.ObjectAtPath | src/records/store.rs:1023-1036 | finds an object of the class at the path exactly when there is one |
| Store.LockedStore.VersionOnChain | src/relations/identity.rs:539-554 | accepts a version exactly when it is retained and its chain has the object's root |
| Index.DescribeExtends | src/relations/identity.rs:422-490 | a new commit keeps an object's kind, root and parent and moves its location by that commit alone |
| Index.AdvanceKeepsIndexIff | src/records/store.rs:1056-1181 | advancing a live object keeps the index exactly when its location follows the new commit and places stay unique |
| Index.CreateKeepsIndexIff | src/records/store.rs:1056-1181 | creating an object keeps the index exactly when its key and kind come from its first commit and no object of its class is at its path |
| PipelineLaws.AppendKeepsIndexIff | src/records/pipeline.rs:195-672 | a source or marker commit that succeeds leaves a store that opens exactly when its guard held |
| PipelineLaws.PathRevivesTombstone | src/relations/identity.rs:470-476 | on every deleted file, any commit with a path succeeds and breaks the index |
| PipelineLaws.DeleteLeavesTombstone | src/records/pipeline.rs:748-757 | creating and deleting a file gives such a tombstone in a sound store |
| PipelineLaws.LifecycleKeepsIndex | src/records/pipeline.rs:685-760 | rename and delete always leave a store that opens |
| PipelineLaws.LinkKeepsIndexIff | src/records/pipeline.rs:851-877 | a link leaves a store that opens exactly when it is recorded at a live object |
| PipelineLaws.AdaptKeepsIndexIff | src/records/pipeline.rs:1325-1422 | the same for adapt |
| PipelineLaws.JournalKeepsIndex | src/records/pipeline.rs:888-979 | journal commits always leave a store that opens |
| PipelineLaws.PatchAcceptedIff | src/records/pipeline.rs:916-938 | a patch is accepted on exactly the live journals, audits and notes alike |
| PipelineLaws.PublishKeepsCoherent | src/records/store.rs:1794-1875 | a published record on retained ones keeps every record that the state needs on disk, with its ancestry |
| Blocks.AtomicStack.End | src/relations/atomic.rs:49-52 | END closes the innermost open BEGIN, and nothing when none is open |
| Blocks.Replay | src/relations/atomic.rs:33-57 | replaying a chain oldest first gives the stack of blocks open at its tip |
| Blocks.ScanIsStackEntry | src/records/pipeline.rs:1459-1484 | scanning back with depth d finds the entry d places below the top of the replayed stack, unmatched ENDs included |
| Blocks.EnclosingBegin | src/records/pipeline.rs:1585-1610 | reports a block exactly when the replayed stack is not empty, and names its top |
| Blocks.BlockMembership | src/records/pipeline.rs:1441-1485 | markers belong to no block; otherwise the recorded parent block, then the innermost open one |
| Blocks.ResolveReset | src/records/pipeline.rs:1542-1580 | refuses members of a block; a BEGIN or an END lands on its predecessor, any other commit on itself |
| BlockLaws.AppendKeepsBlocks | src/records/pipeline.rs:428-437 | a commit keeps the state's open blocks equal to the replay of each chain |
| BlockLaws.CommitJoinsOpenBlock | src/records/pipeline.rs:299-321 | a commit made while its file or its own object has a block open belongs to the innermost such block, so no reset lands on it |
| BlockLaws.ResetOverBeginLeavesBlockOpen | src/records/pipeline.rs:1546-1563 | resetting a tip BEGIN leaves its block open in the state although no chain has it |
| ResetBlocks.ResetBlocksFollowIff | src/main.rs:3991-4128 | an allowed reset leaves the open blocks of every object right exactly when, before it, each object that it moves had the blocks open that it has where it goes: none for an ordinary target or snapshot entry |
| ResetBlocks.NodeBlocksIff | src/records/pipeline.rs:1640-1683 | for the object reset: an ordinary target needs it to have no block open, a marker target the blocks open at the landing |
| ResetBlocks.ChildBlocksIff | src/main.rs:4066-4079 | the same for each range that a file reset restores |
| ResetBlocks.ResetDoneBlocksFollowIff | src/main.rs:4129-4144 | the same for the store as the command leaves it, after the reset's own commit |
| ResetBlocks.OutermostReplaysEmpty | src/records/pipeline.rs:1441-1485 | a commit that no block holds is reached with no block open |
| ResetBlocks.StaleBlockGoesIff | src/relations/atomic.rs:42-51 | a block that the state holds open beyond the chain goes exactly with the first END that closes nothing on the chain |
| ResetBlocks.StaleAfterCommitIff | src/records/pipeline.rs:428-437 | a commit on an object with a stale block puts its open blocks right exactly when it is such an END |
| Resets.RemovedAboveAncestor | src/records/pipeline.rs:1658-1667 | for an ancestor landing the walk collects exactly the commits above it |
| Resets.RemovedOffChain | src/records/pipeline.rs:1658-1667 | for any other landing it collects the whole chain |
| ResetRun.RemovedBy | src/records/pipeline.rs:1658-1667 | the walk collects the commits from the old tip down to the landing |
| ResetRun.ApplyReset | src/records/pipeline.rs:1640-1683 | moves one tip and withdraws the links and pending changes of the removed commits |
| ResetRun.CommitToNode | src/relations/identity.rs:522-533 | gives the object of a retained commit exactly when its chain starts one |
| Resets.MovedStep | src/main.rs:4049-4087 | moving objects one after another is moving them all at once |
| ResetRun.ChildrenOutermost | src/records/pipeline.rs:1487-1507 | refuses a snapshot exactly when some entry is inside a block, and names one |
| ResetRun.ChildrenBelong | src/main.rs:4022-4048 | accepts a snapshot exactly when each entry is a commit of its own range and that range is the file's |
| ResetRun.ResolveTarget | src/main.rs:3940-3973 | a target resolves exactly when its object is known, belongs to the file named and is outside every block |
| ResetRun.WithdrawChildren | src/main.rs:4049-4065 | takes away exactly the ranges that the snapshot does not list, with their open blocks |
| ResetRun.RestoreChildren | src/main.rs:4049-4079 | puts every range of the snapshot back at its tip and under the file, and notes the tips replaced |
| ResetRun.PlaceFile | src/main.rs:4088-4110 | restores the location of the landing's chain unless another content file is there |
| ResetRun.PlanFileReset | src/main.rs:3991-4110 | plans a file reset exactly when it is allowed: ranges not in the snapshot dropped, the others put back at their tips and mounted, location from the landing's chain |
| ResetRun.ResetCommand | src/main.rs:3928-4156 | goes through exactly when the target is outside blocks and on the file named, a range mounted under it or a journal, and for a file when something remains, every snapshot entry fits and no other content file is in the way. Then the chain of the object is the reset's own commit on the chain of the target, without the target if that is a BEGIN or an END, and the object is gone if nothing remains; every other tip, link, pending change, mount, location and open block is told by the chains and the snapshot; otherwise nothing changes and the refusal names what did not hold |
| ResetMeans.ResetGoesBack | src/records/pipeline.rs:1542-1683 | all of that, for every reset that goes through: a link or pending change stays exactly when no object that moved had its commit and lost it |
| ResetMeans.MarkerGoesToo | src/records/pipeline.rs:1546-1563 | a reset to a BEGIN or an END takes that commit off the chain, with every link that it or a commit above it made |
| ResetMeans.AllowedIff | src/main.rs:3928-4110 | the checks of the command hold exactly when the reset may go back, told without the landing |
| ResetMeans.KeptInOrder | src/main.rs:4060-4074 | the ranges that a reset keeps mounted keep their order |
| ResetLaws.FileResetRestores | src/main.rs:3991-4110 | after a file reset the mounted ranges and their tips are exactly the landing's snapshot and the location is the fold of its chain |
| ResetLaws.ResetUndoesLaterChanges | src/records/pipeline.rs:322-331 | resetting to a source or marker commit brings back exactly the ranges and tips of the moment it was made |
| ResetLaws.LandingWithoutSnapshot | src/main.rs:4049-4065 | landing on a commit without snapshot takes every range away, tip and mount |
| ResetLaws.LifecycleHasNoSnapshot | src/records/pipeline.rs:731-737 | rename and delete commits are such commits |
| Landings.LandingRestoresIff | src/records/pipeline.rs:322-331 | a file reset restores the ranges of the moment its landing was made exactly when a source or marker commit made it or the file had no range then; on any other landing no range is left |
| Landings.MadeSnapshot | src/records/pipeline.rs:322-331 | a source or marker commit records the ranges of its file, every other operation none |
| Landings.ResetToRenameLosesRange | src/main.rs:4049-4065 | a store, reached by creating a file, adding a range and renaming, in which resetting to the own tip is allowed and loses the range |
| ResetLaws.FileResetKeepsIndexIff | src/main.rs:4088-4110 | a file reset leaves an index in order exactly when no other object of the file's class is at the restored place |
| ResetLaws.ContentResetKeepsIndex | src/main.rs:4088-4110 | for content files the program's own check is enough |
| ResetLaws.ObjectResetKeepsIndex | src/main.rs:4081-4128 | resetting a range or journal, also to nothing, keeps the index |
| ResetLaws.ResetKeepsCoherent | src/records/pipeline.rs:1640-1683 | a reset leaves no tip or link without its record |
| ResetLaws.ResetKeepsSound | src/main.rs:3928-4156 | every allowed reset publishes a sound state exactly when the restored place is free |
| ResetLaws.MarkerRecordsReset | src/main.rs:4129-4144 | the reset's own commit always succeeds, keeps the store sound, and records the restored ranges as its snapshot |
| ResetLaws.AncestorResetWithdraws | src/records/pipeline.rs:1668-1682 | going back to an ancestor withdraws exactly the links created, and the pending changes made, above it |
| ResetLaws.SidewaysResetWithdrawsAll | src/records/pipeline.rs:1663-1672 | going elsewhere withdraws every link created on the old chain |
| ResetLaws.WithdrawsOnlyAboveIff | src/records/pipeline.rs:1658-1682 | among the links made on the old chain exactly those not on the landing's chain are withdrawn, if and only if the landing is on the old chain or no link was made on a shared commit |
| ResetLaws.ResetPublicationIff | src/main.rs:4111-4130 | the state published first has a new publication number exactly when the object is gone |
| ResetLaws.ResetTips | src/main.rs:3991-4128 | where the tip of every object is after a reset |
| Liveness.EndpointAlive | src/relations/linkhealth.rs:153-174 | a pinned version is alive exactly when it is on the tip's chain, within the guard |
| Liveness.PinnedSurvivesIff | src/relations/linkhealth.rs:149-174 | moving back to an ancestor leaves a pinned version alive exactly when it is the landing or an ancestor of it |
| Liveness.AliveAfterResetIff | src/relations/linkhealth.rs:149-174 | in the store that the reset command leaves, a version is alive on any object exactly when it is on the chain of the tip that the reset gives it: the landing, its tip in the snapshot, none, or the tip it had |
| Imports.ResetPlaceIsFree | src/main.rs:4088-4110 | in a store where imports are where they were created, every allowed file reset finds its place free |
| Imports.ImportResetAllowedIff | src/main.rs:4088-4110 | an import can go back to a commit of its own exactly when no content file is at its path |
| Imports.ImportBesideContentCannotReset | src/main.rs:4095-4103 | an import whose path is tracked as content as well cannot be reset |
| Gc.Reachable | src/main.rs:5478-5485 | the walk from the tips finds exactly the commits on live chains |
| Gc.KeepSet | src/main.rs:5478-5530 | the worklist computes the least set that holds the roots and is closed under predecessor and snapshot, which is exactly what live tips, link versions and creators, protected versions and the commits that live notes annotate lead to |
| Gc.KeepSetIsReached | src/main.rs:5486-5530 | a commit is kept exactly when a trail of predecessors and snapshots leads to it from such a root |
| Gc.RootSurvives | src/main.rs:5498-5514 | a root with its ancestry on disk keeps it: a commit that a live note annotates, for one |
| Gc.KeepSetUnique | src/main.rs:5486-5530 | that set is determined by the store |
| Gc.GcKeepsExactly | src/main.rs:5531-5562 | gc leaves exactly the kept part of the disk, and every kept commit keeps its chain |
| Gc.GcKeepsIndex | src/main.rs:5540-5562 | gc leaves a store that opens |
| Gc.GcKeepsCoherent | src/main.rs:5540-5562 | what stays retained keeps its ancestry and its snapshots on disk |
| Gc.HeldSurvives | src/main.rs:5490-5494 | a protected version keeps its whole ancestry |
| Gc.CollectGarbage | src/main.rs:5476-5562 | a record stays on disk exactly when a root leads to it, and what roots have of ancestry stays; retained ids, reset origins, pending changes and credentials lose exactly the collected ones, in their order; the store stays sound |
| Runs.StepKeepsSoundIff | src/records/pipeline.rs:195-1422 | every operation on a sound store leaves it sound exactly when its guard held |
| Runs.StepKeepsCoherent | src/records/pipeline.rs:195-1422 | every operation, guard or not, keeps the records that the state needs on disk |
| Runs.StepKeepsSteady | src/records/pipeline.rs:195-1422 | in stores with imports in place resets need no guard at all |
| Runs.RunsStaySteady | src/records/store.rs:1056-1181 | every state of every run of admissible operations opens and has its records |
| Runs.FirstBreak | src/records/store.rs:1056-1181 | a run that breaks its store broke it first at an operation other than a reset whose guard failed |
| Runs.SourceCommitObliges | src/records/pipeline.rs:378-407 | a source commit becomes pending on exactly the downstream links; a marker on none |
| Runs.DownstreamMeans | src/records/pipeline.rs:378-407 | downstream links are those that leave the object, or leave a target of such a link |
| Runs.PendingStep | src/records/pipeline.rs:1414-1419 | one step drops a pending pair only by adapting it, withdrawing it or collecting it, and adds one only as a source commit |
| Runs.PendingLeavesOnlyWhenDischarged | src/main.rs:5548-5550 | over any run a pending pair that is gone was discharged by a step in between |
| Runs.BlocksFollowWithoutResets | src/records/pipeline.rs:428-437 | in runs without resets the open blocks equal the replay of every chain at every point |
| FederationLaws.ActKeepsGood | src/records/pipeline.rs:1047-1208 | no file operation of any session started at a store that opens, and no crash, breaks the system invariant |
| FederationLaws.StoresAlwaysBacked | src/records/store.rs:1794-1875 | at every moment of every history, with no condition on the operations run, every store has the records its state needs on disk and every selected credential names a version on its range's chain |
| FederationSound.StoresAlwaysSound | src/records/store.rs:1056-1181 | if every operation met its guard when it started, every store opens at every moment; resets and gc need none |
| FederationSound.ClosedStoreWasBroken | src/records/store.rs:1056-1181 | a store that does not open was broken by an operation whose guard failed when it started |
| FederationLaws.PeerLinksAlwaysProtected | src/records/pipeline.rs:1047-1208 | at every moment of every history, also one in which operations have left stores unable to open, each peer end of an effective link has a selected credential for that record, link, range and version, with the version's ancestry on the peer's disk |
| FederationLaws.PublicationReplacesItsBase | src/records/store.rs:750-768 | the state a session read under its lock is the state its publication replaces |
| FederationLaws.OldOrNew | src/records/store.rs:1855-1873 | wherever an operation on one store is cut off its state file is the old or the new one, with its records |
| FederationLaws.OldOrNewAcross | src/records/pipeline.rs:1047-1208 | the same for both stores of an external link; the consumer has its new state only once the peer has selected the credential |
| FederationLaws.CurrentPublicationCurrentCredentials | src/main.rs:5260-5278 | a gc that finds its publication unchanged after locking has read the current credentials |
| FederationLaws.CredentialGoesOnlyWithItsRecord | src/main.rs:5292-5322 | a selected credential disappears only with the publication of a gc that gives it up, has its consumer locked, and finds the record no longer retained there |
| FederationLaws.OnlyGcGivesUp | src/main.rs:5290-5322 | a session that gives credentials up was started as a gc with exactly those |
| FederationLaws.GcPlan | src/main.rs:5476-5562 | gc keeps every credential that it does not give up, with the target on its chain |
| FederationLaws.StepIsLocal | src/records/pipeline.rs:195-1422 | operations on one store touch no protection, keep what is retained and add no peer link |
| Cross.PeerStore.PersistInbound | src/records/cross.rs:104-154 | stores and selects a credential exactly when the registration is selected, the target is a version on a range's chain and no such file exists |
| Cross.PeerStore.ReadInbound | src/records/cross.rs:34-59 | reads a credential back exactly when its file carries its own hash and its target is on the range's chain |
| Cross.StoreTwice | src/records/cross.rs:102-153 | what is stored can be read back, and storing it again is refused |
| Cross.LinkToPeer | src/records/pipeline.rs:1047-1208 | goes through exactly when both ends are right and the peer can store the credential; the peer then selects a credential for exactly that commit, and the consumer has the link, from the local range to the peer or the other way round as asked, each end at the version given; otherwise neither store changes |
| Cross.LinkThenCommit | src/records/pipeline.rs:1231-1244 | the next source commit on the local range becomes pending on a link to the peer, and on a link from the peer exactly when another link leads there already |
| Cross.ExternalLinkLayers | src/relations/linkhealth.rs:200-209 | of the two ends the source is never on a higher stratum than the target, and on the same exactly on a cycle |
| RangeCheck.EffectiveIsNewest | src/relations/identity.rs:583-601 | the effective body is the newest commit of the chain with a source version and a position, and there is none exactly when no commit has both |
| RangeCheck.EffectiveAfterCommit | src/relations/identity.rs:556-600 | a record with a version and a position becomes the body, any other leaves it |
| RangeCheck.CommitSetsBody | src/records/pipeline.rs:293-331 | a source commit with content and a position becomes the body of its range, with just those; every other commit, and any marker, leaves the body |
| RangeCheck.EffectiveRangeState | src/relations/identity.rs:559-616 | gives root, tip, body, parent and path of a live range under a located file |
| RangeCheck.NewestBody | src/relations/identity.rs:583-601 | the walk finds the newest commit with a body |
| RangeCheck.AssessRange | src/records/pipeline.rs:1696-1783 | the verdict in every case: unverified without a live range under a located file or without its recorded content, no body when no commit has one, otherwise exactly by where the recorded text occurs now and whether some piece of the script concerns the range |
| RangeCheck.CleanMeans | src/records/pipeline.rs:1766-1782 | a clean nonempty range has its recorded text at the recorded position, in byte mode nowhere else |
| Diff.UndirtiedSurvives | src/relations/diff.rs:168-179 | under every valid edit script a range that no hunk dirties survives contiguously |
| Diff.DirtiedBy | src/relations/diff.rs:168-179 | marks exactly the ranges that some piece of the script concerns |
| Diff.DirtiedIff | src/relations/diff.rs:33-67 | a range is dirty exactly when some changed piece, counted with the larger of its old and new extent, reaches into it, or an insertion is right at its end |
| Diff.ByteCandidatesComplete | src/relations/diff.rs:84-93 | the byte search misses no occurrence |
| Diff.TextCandidatesCover | src/relations/diff.rs:103-111 | the text search misses only occurrences that overlap a reported one |
| Diff.ByteCleanIff | src/records/pipeline.rs:1766-1782 | a nonempty byte range is clean exactly when it is undirtied and its bytes occur at the old place and nowhere else |
| Diff.TextCleanIff | src/records/pipeline.rs:1766-1782 | a nonempty text range is clean exactly when it is undirtied, its text is in place and every other occurrence begins inside it |
| Diff.VerdictMeans | src/records/pipeline.rs:1766-1782 | each verdict on a nonempty range, in both modes, exactly in terms of where its recorded text occurs now and whether a hunk dirties it |
| Diff.SearchAloneIff | src/relations/diff.rs:84-111 | a search reports one place exactly when the text is in place there |
| Diff.SearchEmptyIff | src/relations/diff.rs:84-111 | a search reports nothing exactly when the text occurs nowhere |
| Diff.ModesAgreeIffNoBorder | src/relations/diff.rs:84-111 | text and byte verdicts agree for all contents and scripts exactly when the text of the range has no border |
| Diff.BorderTellsThemApart | src/relations/diff.rs:103-111 | for every text with a border, unchanged content on which the two verdicts differ |
| Diff.TextMissesOverlap | src/relations/diff.rs:103-111 | text mode does call a range clean whose text occurs twice |
| Diff.MapLoopIs | src/relations/diff.rs:131-151 | the loop gives the image of the position, less the shift lost when it clamps |
| Diff.MapPositionExactIff | src/relations/diff.rs:131-151 | a mapped position is its image in the new text exactly when nothing was clamped or the shift was zero |
| Diff.MapPositionByPiece | src/relations/diff.rs:131-151 | where each position goes, piece by piece: as far into the copy, as far from a removed piece's old place as its replacement is long, in front of an insertion for the end of a range, the new end for the old |
| Diff.MapRangeCollapses | src/relations/diff.rs:155-167 | a range inside one removed piece maps nowhere |
| Diff.ClampLosesShift | src/relations/diff.rs:138-141 | an edit script on which the clamp loses the shift |
| Diff.ShiftNeverNegative | src/relations/diff.rs:131-151 | the running position never goes below zero |
| Diff.MapRangeKeepsText | src/relations/diff.rs:155-167 | a nonempty range that no hunk enters or meets at its end maps to a span in bounds with the same text |
| GitResolve.NormalizeRepoPath | src/sources/git.rs:149-173 | fails exactly when some prefix of the target climbs above the root, and otherwise gives the one path in which every `..` has removed the component before it and nothing else is removed |
| GitResolve.NormalizedFailsAboveRoot | src/sources/git.rs:149-173 | normalization fails exactly when some prefix climbs above the root |
| GitResolve.NormalizedIff | src/sources/git.rs:149-173 | each component of the result is the parent's own at its place, never removed, or the last name put there |
| GitResolve.LandsUnique | src/sources/git.rs:149-173 | that fixes the result |
| GitResolve.LeastDepthSurvives | src/sources/git.rs:149-173 | the result begins with the parent's components down to the least depth reached, and only names of the target follow |
| GitResolve.NormalizedConcat | src/sources/git.rs:149-173 | a target in two parts leads where the second part leads from where the first does |
| GitResolve.DownThenUp | src/sources/git.rs:149-173 | names followed by as many `..` leave any path unchanged |
| GitResolve.UpThenDown | src/sources/git.rs:149-173 | n `..` and then names lead to the names under the directory n levels up |
| GitResolve.DerivesUnique | src/sources/git.rs:46-103 | the resolution relation determines its result |
| GitResolve.LinkLeads | src/sources/git.rs:67-103 | a link in a directory, whatever follows it, leads where its normalised target with the same rest leads |
| GitResolve.UpwardLinkLeads | src/sources/git.rs:67-103 | a link that goes up n levels and down again leads to what is that many levels above its directory |
| GitResolve.EntryResolves | src/sources/git.rs:52-66 | a blob or tree in a directory resolves to itself, anything missing or unsupported to nothing |
| GitResolve.ResolvePath | src/sources/git.rs:46-103 | ends on every tree; on success restores the active links and gives a path without link prefixes that has a derivation; never fails when there is one, and names an error that the tree explains |
| GitResolve.FollowLink | src/sources/git.rs:46-103 | following a link ends, restores the active links, and succeeds whenever the resolution has a derivation |
| GitResolve.ReadBlob | src/sources/git.rs:20-44 | succeeds exactly when a finite derivation leads to the blob, says so exactly when one leads to a tree, and names any other error by what the tree holds; a cycle error means that there is no derivation |
| Bytes.FramedUnique | src/records/id.rs:53-56 | length-framed fields can be cut apart in one way |
| Bytes.FrameReads | src/records/id.rs:53-56 | a reader of eight length bytes, most significant first, gets each frame back whole |
| Bytes.LessIff | src/records/id.rs:123-127 | a key comes before another exactly when it begins it or has the smaller byte where they first differ |
| Bytes.SortedAscends | src/records/id.rs:123-127 | members are written in ascending key order |
| CommitId.Jcs | src/records/id.rs:104-139 | the writer appends the canonical text of a value |
| CommitId.TailReads | src/records/id.rs:109-112 | every string is read back from its literal by the escapes of section 7 of RFC 8259 |
| CommitId.WriteReads | src/records/id.rs:104-139 | every value is read back from its canonical text by a reader that takes no white space and only ascending keys |
| CommitId.QuotedUnique | src/records/id.rs:109-112 | so string literals are prefix-free |
| CommitId.WriteUnique | src/records/id.rs:104-139 | so canonical texts of values are unique and can be cut out of any text in which a delimiter or the end follows |
| Preimage.BuildPreimage | src/records/id.rs:147-159 | the bytes hashed are salt and framed previous id, timestamp, content and canonical payload |
| Preimage.PreimageReads | src/records/id.rs:147-159 | salt, predecessor, time, content and canonical fields are read back from the bytes hashed |
| Preimage.KindNameIsSnakeCase | src/records/commit.rs:288-312 | the kind named in the id is the kind named in the record on disk |
| Preimage.Frame | src/records/id.rs:53-56 | appends the length and the bytes |
| Preimage.CanonicalPayloadBytes | src/records/id.rs:92-99 | the canonical payload is the canonical text of payload, content ref, kind, schema and range tips |
| Preimage.FieldsDetermine | src/records/commit.rs:138-154 | equal canonical payloads mean equal kind, schema, content ref up to hex case, range tips, and payload but for its own kind key |
| Preimage.PreimageIdentifies | src/records/id.rs:147-159 | for validated commits equal preimages mean the same commit, and the other way round |
| Preimage.PayloadFixed | src/records/commit.rs:201-267 | only note patches have a payload key of their own that the canonical form overwrites |
| PayloadFields.PayloadAllowedIff | src/records/commit.rs:201-281 | the pipeline's payload check allows exactly what validation allows and requires, field by field |
| Preimage.NotePatchKindIsLost | src/records/id.rs:92-98 | two different note patches with one preimage |
| Preimage.EncodeDecoded | src/records/commit.rs:315-321 | reading and writing a content ref lowers its case |
| Glob.SegMatch | src/sources/scope.rs:138-164 | the matcher ends, is never too generous, and agrees with the definition on segments without a star |
| Glob.MatchesIff | src/sources/scope.rs:138-164 | a pattern means that the segment can be cut into one piece for each pattern character: any piece for `*`, one character for `?`, itself for any other |
| Glob.AgreesIffNoStar | src/sources/scope.rs:138-164 | it agrees with the definition for all patterns exactly on segments without a star |
| Glob.StarInSegment | src/sources/scope.rs:145-147 | a pattern and a segment on which it does not |
| CivilTime.EpochDayIsDayCount | src/records/time.rs:84-90 | the closed-form day number is the count of days since 1970-01-01 |
| CivilTime.EpochDaySteps | src/records/time.rs:84-90 | the next day has the next number, across months, leap years and centuries |
| CivilTime.EpochDayIncreases | src/records/time.rs:84-90 | later dates have higher numbers |
| CivilTime.SecondsCountTheClock | src/records/time.rs:91 | seconds count from 1970-01-01T00:00:00, one for each second of the clock, over every midnight |
| CivilTime.InstantIsExact | src/records/time.rs:91-93 | up to nine fraction digits nanoseconds are exact |
| CivilTime.ParseExactIff | src/records/time.rs:36-94 | for every valid time the parsed value is the instant exactly when that lies between 1970 and the 64-bit limit and, beyond nine fraction digits, all of them are zeros |
| CivilTime.RefusedIff | src/records/time.rs:92-93 | a valid time is refused exactly when it has twenty or more fraction digits whose number overflows 64 bits |
| CivilTime.ExactKeepsOrder | src/records/time.rs:36-94 | where the parser is exact it keeps the order of instants, both ways and for fractions of any length |
| CivilTime.ParseIncreases | src/records/time.rs:36-94 | within that span, with at most nine fraction digits, later fields parse to larger numbers |
| CivilTime.LongFractionIsWrong | src/records/time.rs:92-93 | an example: half a second in ten digits is read as five seconds |

## Left out

- SHA-256, `encoding_rs`, the Myers implementation and `difft`: ids are fresh, text is a sequence, the diff is any valid edit script.
- Expected-evidence checks, write authority, registrations, project identity and machine-local mappings: a call that they refuse changes nothing; in `Cross` the consumer's registration is a parameter.
- Dirty obligations, tags, tag rules and reasons: no modelled property depends on them.
- Abbreviated commit ids: targets and versions are full ids.
- Object locators by path: a locator is an object, or the name of one to create.
- The order of `BTreeMap` iteration: loops over maps take keys in any order, and the results do not depend on it but for the order of restored mounts, which is left open.
- Content collection (`gc --content`), bindings and source versions: records only.
- Registration mismatches in gc: any subset of the credentials that may be given up is given up.
- Federation.Act: a reset is a move and a commit, with the lock free in between; the program holds it throughout, so the model has more histories.
- Federation.StartEnabled: a store that another session breaks between the opening and the locking of it is caught by the evidence checks; the model asks that it opens when the lock is taken.
- Federation.Free: a session gets all its locks at once or none; the order in which the program tries them is not modelled.
- Federation.Act: the publication lines in the `published` file are not part of this model.
- A publication whose directory sync fails ends its session; the program's stale copy of the state after it is not modelled.
- Store.LockedStore.Publish: a record that exists already is excluded by freshness instead of reported.
- Preimage.BuildPreimage: the hash over the preimage is not modelled.
- Diff.MapRangeKeepsText: says nothing about ranges that a hunk enters, which the program marks dirty.
- CivilTime.ParseExactIff: the text is taken apart into numbers already; the splitting at `T`, `:` and `.` is not modelled.
- `glob_match` over path segments, `included` and `walk`: folds over the segment matcher.
- `judge_link`, coverage counting, tag inheritance, the audit colouring walk: easy next to the rest.
- CLI parsing, JSON projection, diagnostics and paging.
