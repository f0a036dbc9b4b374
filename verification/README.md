# Verification model of the file organizer

This project models, in Dafny 4.11, the parts of the application that move files, watch folders
and keep derived structures in step with a plain description, and proves what they promise. Verify
with `dafny verify dfyconfig.toml`.

## What is modelled

**Planning, applying and undoing moves.** `Paths` and `FileTree` describe a volume as a map from
lower-cased paths to files, directories and links, and the four primitives of the executor with
their undo. `Execution` is a session: the loop that applies the prepared operations, the worker
whose answer may be lost, pause and cancellation, rollback and recovery. `MovePlanner`,
`SourceCleanup`, `CleanupPlan`, `Preparation` and `PreparedRun` are `prepare_execution` step by
step: preflight, collisions, dependencies, ordering, staging of cycles, missing directories, and
the recursive walk that finds the source folders a plan empties. `PlanRuns` proves what a prepared
plan does to a tree, whole, cut short and undone; `PlanExamples` has concrete plans.

**Continuous monitoring.** `JobStore` is the durable queue with its claim tokens,
`Reconciliation` the comparison of a listing with the catalog, `Catalog` what scans and given-up
paths do to it, `StableCatalog` the looks at files and the history of what was stored, and
`MonitoringCycle` the cycle: claiming, screening, stability, batches, the pipeline, cancellation and
recovery. Between any two steps other threads may queue events.

**Content extraction.** `ExtractionPool` has the workers, the stop flag, the bounded channel and
the receiver as interleaved steps, and the paging loop above them.

**Proposals.** `Simulation` is the virtual file system; `ProposalState` is the state machine of
generating, simulating, reviewing, polling, sealing and approving.

**Structures that must agree with a plain description.** `FolderBundle` (the rewrite that keeps
folders together), `FolderSummary` (the folder trie), `MindMap` (the tree and its ancestor closure),
`KnowledgeMap` (nodes, contexts, edges), `IdentityRun` (pairwise assessment) and `ConsumerScan` (the
batched scan).

Code that loops over state is a method or a class over `map`, `seq` and `array` fields, proved
against a specification function or predicate; pure code is functions and lemmas.

## What the proofs found

Where the code does less than one would expect, the model keeps the code and the project states
exactly when the expectation holds.

- A destination above another destination is not rejected by any check. Such a plan is prepared
  and its run stops part way (`PreparedRun.HarmlessYetAbove`); with
  `PlanRuns.CompletesExactlyWhenClear` this and the next point are the only ways a run can stop
  by itself. Rollback is exact in every case.
- The walk over source folders compares spellings, while the volume ignores case. A destination
  that returns into an emptied folder under another spelling is not seen, and the folder's removal
  is then refused (`PreparedRun.UnderRemovedExactly`, `PlanExamples.ReturnsIntoExample`).
- The simulation displays destinations with backslashes and compares them with scanned paths as
  they are: on volumes with `/` it does not notice that a destination inside a folder is occupied
  (`Simulation.MixedSeparatorsExactly`). The executor's own checks do.
- Reconciliation never settles while a listed file is one that only review can take, or while an
  excluded row has lost its file: the same gaps are reported again
  (`Reconciliation.SettlesExactlyWhenNothingIsStuck`).
- Directory reconciliation lists only the new path. A file left behind at the old one is reported as
  removed although it is there, or missed (`Reconciliation.DirectoryMatchesRootExactly`,
  `Reconciliation.LeftBehindDisagrees`).
- A job for more than one file can be completed by a comparison that did not finish. A cancellation
  that interrupts the comparison and is withdrawn before the next poll leaves the job completed
  (`MonitoringCycle.InterruptedYetCompleted`), and so does a bounded root comparison for a job of
  unknown scope, because only overflows and rescans look at the overflow mark
  (`MonitoringCycle.BoundedYetCompleted`). These are the only ways: `MonitoringCycle.SoundAtExactly`
  and `MonitoringCycle.SoundForJobExactly`.
- A claim can end without a release of its own: an event for its path, also one that a rescan of
  the same batch queues, joins the job and overtakes the claim. `MonitoringCycle.Monitor.ProcessDue`
  therefore says "released or overtaken".
- Truncation at the depth limit merges places although its comment says it does not
  (`FolderBundle.TruncationMerges`, `FolderBundle.TruncatedPlacesMeetExactly`).
- In the scan loop that the script writes, the limit of 256 does not bound a batch
  (`ConsumerScan.AliasesAreOneBatch`); in the scanner's present form it does
  (`ConsumerScan.CurrentBatchesAreFull`).

## Model

| member | source | states |
|---|---|---|
| `Paths.JoinIsInjective` | crates/application/src/execution.rs:4339-4346 | Two different paths of separator-free names never have one text, so the texts in operations stand for the paths. |
| `Paths.TextTestDecidesDescent` | crates/application/src/execution.rs:4199-4204 | The test "equal, or starts with the text and a slash" holds exactly when one path lies at or under the other: `ab` is not under `a`. |
| `FileTree.UndoRestores` | crates/application/src/execution.rs:3054-3173 | Any accepted directory creation, move or removal can be undone at once, and gives back exactly the tree from before. |
| `FileTree.ReplayKeepsWellFormed` | crates/application/src/execution.rs:993-1227 | No accepted list of steps leaves an entry without its parent directory. |
| `FileTree.UnwindRestores` | crates/application/src/execution.rs:1860-2197 | Any accepted list of steps, whole or cut short, undone from its last step is accepted step by step and ends at the starting tree. |
| `FileTree.ReplayKeepsFiles` | crates/application/src/execution.rs:993-1227 | After any accepted list of steps the files are those from before, unaltered, each exactly where the moves carried it: none lost, none made, none overwritten. |
| `FileTree.ReplayKeepsLinks` | scripts/patch_whole_user_folder_organization.py:507-509 | No accepted step removes or moves a link. |
| `PlanRuns.PlanCompletes` | scripts/patch_whole_user_folder_organization.py:465-555 | Directory creations, moves and then removals all succeed when no destination is above another one or inside a removed directory; every planned file is at its destination, other entries survive. |
| `PlanRuns.CompletesExactlyWhenClear` | scripts/patch_whole_user_folder_organization.py:465-555 | For every plan the planner can make, the run completes if and only if no destination is above another one and none lies at or under a removed directory. |
| `PlanRuns.PlannedFilesArrive` | crates/application/src/execution.rs:404-507 | Each planned file, directly or through its staging place, ends at the destination of its own proposal, also around cycles. |
| `PlanRuns.RemovedTreesAreGone` | scripts/patch_whole_user_folder_organization.py:496-499 | After a completed run nothing is left at or under a removed directory. |
| `PlanRuns.CompletedPlanUndone` | crates/application/src/execution.rs:1860-2197 | A completed plan undone from its last step to its first gives exactly the starting tree. |
| `Execution.ObservationIsExact` | crates/application/src/execution.rs:3176-3333 | On either side of an accepted step, the recovery observation tells forwards and backwards which side the disk is on; it is never ambiguous there. |
| `Execution.RecoveryAgrees` | crates/application/src/execution.rs:1375-1515 | Recording what recovery observes for the one interrupted operation makes the recorded statuses explain the disk again. |
| `Execution.Session.ApplyScheduled` | crates/application/src/execution.rs:993-1227 | Applied exactly when the step is possible and the worker confirms it; a lost answer to a possible step is the only way into recovery; a refusal changes no file and stops the run; other operations keep their status. |
| `Execution.Session.RunNext` | crates/application/src/execution.rs:809-989 | One turn of the loop: go on with everything scheduled so far applied, or halt for a reason the caller can see (refusal, lost answer, pause or cancellation outside a started staging group). |
| `Execution.Session.Start` | crates/application/src/execution.rs:809-989 | A run that is not halted has replayed the whole schedule on the starting tree; it is completed only when every operation is applied; a halted one says why, and with no interruption the reason is a step that cannot be replayed. |
| `Execution.HaltedRunFails` | crates/application/src/execution.rs:809-989 | A refused step means the schedule as a whole cannot be replayed on the starting tree. |
| `Execution.HaltedInside` | crates/application/src/execution.rs:809-989 | A run that stops early has in effect a proper prefix of the scheduled steps. |
| `Execution.Session.RollbackOne` | crates/application/src/execution.rs:1916-2170 | The last operation in effect is undone exactly when the worker confirms it; the step itself is always possible. |
| `Execution.Session.Rollback` | crates/application/src/execution.rs:1860-2197 | Accepted exactly in the statuses that allow it; a finished rollback leaves the starting tree whatever ran before, and with a reliable worker it finishes. |
| `Execution.Session.Recover` | crates/application/src/execution.rs:1375-1515 | Recovery moves no file, is accepted exactly in the recovery statuses, and classifies the interrupted operation without ambiguity. |
| `Execution.Session.FilesAreConserved` | crates/application/src/execution.rs:809-989 | At every quiet moment of any history of a session, every file of the starting tree exists exactly once, unaltered, where the operations in effect carried it. |
| `MovePlanner.Preflight` | crates/application/src/execution.rs:2481-2587 | A proposal is blocked exactly when it is stale, undecided, a move to itself, unsound in its names, or its source is not the approved file. |
| `MovePlanner.GroupByDestination` | crates/application/src/execution.rs:4062-4083 | Every open candidate is in the group of its destination and no other, in order. |
| `MovePlanner.DetectPlanCollisions` | crates/application/src/execution.rs:4062-4083 | A candidate becomes blocked exactly when another open one has a destination filed alike; nothing else changes. |
| `MovePlanner.ResolveDestinationDependencies` | crates/application/src/execution.rs:2642-2742 | The verdict on every candidate, exactly: a free destination is left alone or may not appear; an occupied one stays open and waits for the open candidate that leaves it, and blocks when nobody leaves it, when it is the candidate itself, or when that one was blocked before. |
| `MovePlanner.PropagateDependencyBlocks` | crates/application/src/execution.rs:4085-4114 | The result is the least set of blocked candidates that contains the given ones and everything that waits for a blocked one. |
| `MovePlanner.DependencyOrder` | crates/application/src/execution.rs:4116-4167 | Open candidates are split into a list in which each waits only for earlier ones, and a rest in which each waits for another of the rest; none is listed twice or dropped. |
| `MovePlanner.SortBySource` | crates/application/src/execution.rs:4116-4167 | The sort lists each index once, in order of source. |
| `SourceCleanup.DestinationTestIsExact` | crates/application/src/execution.rs:4199-4204 | The text test over all destinations finds one exactly when some destination lies at or under the directory. |
| `SourceCleanup.CollectFullyPlannedDirectoryTree` | crates/application/src/execution.rs:4195-4247 | Safe exactly when the tree holds only directories and planned source files and no destination is spelled at or under it; then each directory of the tree was listed once. An unsafe walk only adds entries that the caller drops. |
| `SourceCleanup.WalkChild` | crates/application/src/execution.rs:4207-4247 | One entry: the walk goes on exactly when the entry is cared for, and has then listed all directories of what it walked. |
| `CleanupPlan.SortPaths` | crates/application/src/execution.rs:2864-2869 | Deepest first (or shallowest first), ties by text; the same paths, each once. |
| `CleanupPlan.SafeTopsAreApart` | crates/application/src/execution.rs:2842-2863 | No two spellings of one folder can both be safe, so no directory is removed twice. |
| `CleanupPlan.CleanTop` | crates/application/src/execution.rs:2849-2863 | Exactly the directories of a safe top-level folder are added, none of an unsafe one. |
| `CleanupPlan.PlanSourceDirectoryCleanup` | crates/application/src/execution.rs:2814-2904 | The removals are exactly the directories of the folders the plan empties, each once, children before parents. |
| `CleanupPlan.DirectoryPrefixes` | crates/application/src/execution.rs:4385-4409 | One spelling for each directory above a destination. |
| `CleanupPlan.Sift` | crates/application/src/execution.rs:2757-2812 | Of the sorted prefixes exactly the missing ones are kept, unless one exists as something else. |
| `CleanupPlan.PlanDirectories` | crates/application/src/execution.rs:2744-2812 | Exactly the missing directories above the destinations, each once, parents first; refused exactly when a needed one is not a directory. |
| `Preparation.Judge` | crates/application/src/execution.rs:363-402 | What stays open is safe to move, and it is the greatest set of proposals that can be moved together: each passes preflight, shares its destination with no other, and goes to a place that may appear or that another one of the set leaves. Chains, swaps and cycles stay open. |
| `Preparation.UniqueStagingPath` | crates/application/src/execution.rs:2906-2929 | The first of sixteen random names that is free on disk and among the reserved ones; refused exactly when none is. |
| `Preparation.StagingPlaces` | crates/application/src/execution.rs:452-507 | As many staging places as files in cycles, all apart and absent; with distinct names and an open staging folder never refused. |
| `Preparation.PreparedMovesArePlanned` | crates/application/src/execution.rs:404-529 | The moves of a prepared plan have all that a run needs: sources present once, destinations free or vacated earlier, stages feeding finals. |
| `Preparation.DirectoriesArePlanned` | crates/application/src/execution.rs:509-521 | The created directories are what the moves need and nothing a move depends on being absent. |
| `Preparation.PrefixesAreOpen` | crates/application/src/execution.rs:2744-2812 | For a judged plan no needed directory is blocked: planning its directories cannot fail. |
| `Preparation.RemovalsArePlanned` | crates/application/src/execution.rs:2814-2904 | Every planned removal is a directory whose whole content the plan moves away or removes before it. |
| `PreparedRun.OperationsCarryThePlan` | crates/application/src/execution.rs:516-539 | The operations in the order they are stored run exactly the steps of the plan. |
| `PreparedRun.PreparedDependencies` | crates/application/src/execution.rs:404-507 | Every operation depends only on operations scheduled before it. |
| `PreparedRun.PreparedGroup` | crates/application/src/execution.rs:452-507 | The staging moves and their final moves stand together, so the group that may not be interrupted is one block. |
| `PreparedRun.PlanAround` | crates/application/src/execution.rs:404-539 | For every judged and arranged set of candidates the directory steps around the moves make a plan that meets the conditions of a run. |
| `PreparedRun.Prepare` | crates/application/src/execution.rs:303-613 | A prepared plan carries exactly the greatest set of proposals that can be moved together, cleans up exactly the emptied folders and can be run. With an open staging folder a plan is made exactly when something can be moved and, unless parts are allowed, everything can be moved together. |
| `PreparedRun.RunAndRollBack` | crates/application/src/execution.rs:809-989 | For every prepared plan: the uninterrupted run completes exactly when no destination is above another or under a removed directory; what it did are the steps of the plan up to where it stopped, which carry every file; and its rollback always ends at the starting tree. |
| `PreparedRun.CyclesAreStaged` | crates/application/src/execution.rs:452-507 | No member of a cycle of proposals is moved directly: all go through staging, in every prepared plan. |
| `PreparedRun.UnderRemovedExactly` | crates/application/src/execution.rs:4195-4247 | A destination lies under a removed directory exactly when it returns into an emptied folder under another spelling: the walk compares spellings, the volume does not. |
| `PlanExamples.ReturnsIntoExample` | crates/application/src/execution.rs:4195-4247 | A single harmless proposal, `P/f` to `p/g`: every plan prepared for it empties `P`, and no run of it completes. |
| `PreparedRun.HarmlessYetAbove` | crates/application/src/execution.rs:2642-2742 | Two proposals that are each harmless, one destination above the other, are both scheduled, and then no run completes. |
| `PlanExamples.HarmlessYetAboveExample` | crates/application/src/execution.rs:2642-2742 | Such proposals exist: `a` and `a/x`. |
| `PlanExamples.SwapExample` | crates/application/src/execution.rs:452-507 | Two files that change places are prepared with two staging moves and no direct one, the run completes, and each file is where the other one was. |
| `JobStore.Jobs.Release` | crates/persistence/src/monitoring.rs:1232-1276 | A guarded update succeeds exactly while its claim is held, and ends that claim. |
| `JobStore.Jobs.Claim` | crates/persistence/src/monitoring.rs:2378-2415 | A job is claimed exactly when it is due, under a token never used before; a claim whose lease ran out expires and no other claim is touched. |
| `JobStore.Jobs.Append` | crates/persistence/src/monitoring.rs:1777-1944 | An event joins the one open job of its path, or opens one only when there is none; at most one open job per path remains, and a claim on a joined job is overtaken. |
| `JobStore.Jobs.AppendAll` | crates/persistence/src/monitoring.rs:854-872 | After a list of events every path has a queued unsampled job, closed jobs are untouched, and claims end only by being overtaken. |
| `JobStore.Jobs.Finish` | crates/persistence/src/monitoring.rs:1232-1276 | The job gets its final status exactly when the claim is still held; a lost claim changes nothing. |
| `JobStore.Jobs.Requeue` | crates/persistence/src/monitoring.rs:1119-1150 | The job waits again, unsampled, exactly when the claim is still held. |
| `JobStore.Jobs.Reschedule` | crates/persistence/src/monitoring.rs:1024-1072 | One more attempt is counted and the job waits or has failed for good, exactly when the claim is still held. |
| `JobStore.Jobs.RecordSample` | crates/persistence/src/monitoring.rs:979-1022 | The sample is stored and the job waits, exactly when the claim is still held. |
| `JobStore.Jobs.Advance` | crates/persistence/src/monitoring.rs:1152-1178 | Stage and lease change exactly when the token guards the row; no claim ends. |
| `JobStore.IntactGivenUp` | crates/persistence/src/monitoring.rs:1777-1944 | While a claim is held its row stands for the file that was claimed: whatever gives a row up, or changes its path, ends the claim on it. |
| `JobStore.Jobs.Recover` | crates/persistence/src/monitoring.rs:1180-1216 | No job stays claimed; exactly the claimed ones are retried. |
| `JobStore.NoneHeldNoneProcessing` | crates/persistence/src/monitoring.rs:1180-1216 | No job is processing exactly when no claim is held. |
| `Reconciliation.ExcludedByKey` | crates/application/src/monitoring.rs:1888-1946 | Whether a path is excluded does not depend on how its letters are cased. |
| `Reconciliation.CompareFiles` | crates/application/src/monitoring.rs:736-770 | Exactly one report for each listed file that is new or changed and not excluded; the rows left over are exactly those nothing in the listing met. |
| `Reconciliation.ReconcileRootGap` | crates/application/src/monitoring.rs:696-819 | Interrupted reports nothing; otherwise the reports are exactly the gaps, removals only from complete data; the root is reconciled exactly for complete data without a gap. |
| `Reconciliation.ReconcileDirectoryGap` | crates/application/src/monitoring.rs:821-951 | Incomplete data is refused without a report; complete data reports exactly the gaps of the two scopes and nothing outside them. |
| `Reconciliation.RemovedOnlyWhenGone` | crates/application/src/monitoring.rs:772-789 | A removal is reported only from complete data, for a cataloged file that is not listed. |
| `Reconciliation.WorkedOffReachesTarget` | crates/application/src/monitoring.rs:696-819 | Working off the reports makes the catalog the listed files that are not excluded plus the untouched rows of excluded files, when nothing is stuck. |
| `Reconciliation.WorkedOffExists` | crates/application/src/monitoring.rs:696-819 | Whatever was reported can be worked off: there are catalog rows, one for each path, that the reports lead to. |
| `Reconciliation.SettlesExactlyWhenNothingIsStuck` | crates/application/src/monitoring.rs:696-819 | A second reconciliation is empty if and only if no listed file is one that only review can take and no excluded row has lost its file. |
| `Reconciliation.DirectoryMatchesRootExactly` | crates/application/src/monitoring.rs:821-951 | A complete directory reconciliation agrees with root reconciliation inside its scopes if and only if nothing is left at the old path. |
| `Reconciliation.LeftBehindDisagrees` | crates/application/src/monitoring.rs:845-900 | A file left at the old path is reported as removed although it is there, or missed when it is new. |
| `Catalog.ObservedExactly` | crates/persistence/src/lib.rs:4867-5090 | After a scan a location is what the scan saw there, or an old one whose place was not taken and whose file was not seen elsewhere. |
| `Catalog.MissedExactly` | crates/persistence/src/monitoring.rs:1512-1654 | Giving up paths removes exactly the places the batch left. |
| `Catalog.MovedFileIsCurrentExactly` | crates/application/src/monitoring.rs:1361-1390 | At every exit of the loop the identity of a moved file is current at source or destination if and only if the scan saw it, or its source is not given up yet and was not taken. |
| `Catalog.MovedFileIsNeverLost` | crates/application/src/monitoring.rs:1361-1390 | A move whose file the scan saw at the destination is current there at every exit. |
| `MonitoringCycle.Monitor.ReconcileRoot` | crates/application/src/monitoring.rs:696-819 | Inside the cycle: fails exactly on a fault or without a listing; every gap found waits in the queue; the root is marked overflowed exactly when the comparison was bounded. |
| `MonitoringCycle.Monitor.ReconcileDirectory` | crates/application/src/monitoring.rs:821-951 | Inside the cycle: fails exactly on a fault or on incomplete data, which leaves the root overflowed; every gap found waits in the queue. |
| `MonitoringCycle.Monitor.SampleStability` | crates/application/src/monitoring.rs:1214-1269 | Stable exactly when a safe readable file looks as its recorded sample does, and then the last two looks at the path of the job agree; unsafe, foreign and unreadable files get their own verdict. Exactly the looks that count are recorded, with their step and path. |
| `MonitoringCycle.Monitor.CompareLook` | crates/application/src/monitoring.rs:1236-1262 | A safe look is the second of its kind, or the row of the held claim records it as a look at its own path; a lost claim records nothing. |
| `MonitoringCycle.Monitor.SettleGap` | crates/application/src/monitoring.rs:1016-1107 | What follows a reconciliation: a failed one is retried; after one that did not fail the job waits again if the next poll is cancelled, is retried if it stands for a whole root that is marked overflowed, and is completed otherwise. |
| `MonitoringCycle.Monitor.CompareGap` | crates/application/src/monitoring.rs:1016-1095 | The comparison that a job stands for: interrupted exactly when its listing or the poll with it was cancelled, bounded exactly for a whole root with incomplete data, which is then marked overflowed. |
| `MonitoringCycle.Monitor.ScreenGap` | crates/application/src/monitoring.rs:1016-1107 | The whole branch: without a fault the job ends as the listing, the cancellation and the overflow mark say, and the outcome is a finished comparison exactly when it was neither interrupted nor bounded; the reasons for failing are listed. |
| `MonitoringCycle.SoundForJobExactly` | crates/application/src/monitoring.rs:1016-1107 | With cancellations that are not withdrawn, a job is completed only by a comparison that was neither interrupted nor bounded, for jobs of whole roots and of directories, and for no other job. |
| `MonitoringCycle.SoundAtExactly` | crates/application/src/monitoring.rs:1016-1107 | For those jobs this holds at a step exactly when a cancellation that interrupted the comparison still stands at the poll after it. |
| `MonitoringCycle.BoundedYetCompleted` | crates/application/src/monitoring.rs:1065-1095 | A job of unknown scope over a listing that was cut off: its comparison is bounded, and it is completed. |
| `MonitoringCycle.InterruptedYetCompleted` | crates/application/src/monitoring.rs:1016-1036 | A rescan whose cancellation is withdrawn before the next poll: its comparison reported nothing, and it is completed. |
| `MonitoringCycle.Monitor.ScreenFile` | crates/application/src/monitoring.rs:1109-1172 | A job for one file goes to the batch, or ends as excluded, to review, waiting or retried, exactly as its path, kind and look decide. |
| `MonitoringCycle.Monitor.Screen` | crates/application/src/monitoring.rs:997-1172 | One claimed job: cancelled ones wait again, jobs of unknown roots are retried, others are screened; the screening fails only on a fault or a lost claim. |
| `MonitoringCycle.Monitor.AdvanceAll` | crates/application/src/monitoring.rs:1622-1642 | Every claim of the batch that is still held is at the stage; it fails only on a fault or a lost claim. |
| `MonitoringCycle.Monitor.CloseAll` | crates/application/src/monitoring.rs:1543-1561 | All jobs of a batch end in one way, each exactly once: waiting again, retried, or completed when cataloged and to review when not. |
| `MonitoringCycle.Monitor.Pipeline` | crates/application/src/monitoring.rs:1419-1565 | Without a cancellation the batch ends as cataloged decides, with one it is back in the queue; it fails only on a fault or a lost claim. |
| `MonitoringCycle.Monitor.StoreScan` | crates/application/src/monitoring.rs:1291-1371 | A scan is stored only when no own path of a job drifted from its stable sample, and then the catalog is exactly what the scan observed and own paths are as their last two looks; otherwise it is untouched, for a stated reason. |
| `MonitoringCycle.Monitor.GiveUpPaths` | crates/application/src/monitoring.rs:1372-1390 | Sources are given up in order, a move only after the scan had its destination; catalog and history at any exit are exactly those of the paths given up so far. |
| `MonitoringCycle.Monitor.CatalogBatch` | crates/application/src/monitoring.rs:1291-1390 | At every exit the catalog is untouched, or it is the scan minus a prefix of the given-up paths. |
| `MonitoringCycle.Monitor.ReconcilePrepared` | crates/application/src/monitoring.rs:1271-1417 | What is stored under an own path is what the last two looks at it saw. Without fault, cancellation or lost claim each job of a stored batch is completed or put to review; the reasons for failing are listed. |
| `MonitoringCycle.Monitor.DueIds` | crates/persistence/src/monitoring.rs:910-946 | Due jobs of enabled roots, each once, and all of them when fewer than the limit. |
| `MonitoringCycle.Monitor.ClaimAll` | crates/persistence/src/monitoring.rs:961-977 | Each due job is claimed once, and no other claim is new. |
| `MonitoringCycle.Monitor.ClaimDue` | crates/application/src/monitoring.rs:953-996 | The due jobs up to the limit are claimed, and the claims of one root are for different paths, however they are spelled. |
| `MonitoringCycle.Monitor.ProcessDue` | crates/application/src/monitoring.rs:953-1212 | It claims the due jobs up to the limit; on normal return each claim it made has ended exactly once, by a release of its own or because an event overtook it. |
| `MonitoringCycle.Monitor.RunCycle` | crates/application/src/monitoring.rs:286-316 | When the cycle returns, normally or with an error after claiming, no job is processing unless one was before or the recovery itself failed. |
| `StableCatalog.OwnPathsAreStable` | crates/application/src/monitoring.rs:1342-1360 | If a scan does not drift from the stable samples of a batch whose own paths differ, then what it has under any of these paths is what the last two looks recorded for its job, both taken at that path of the root, saw. |
| `StableCatalog.ClaimsAreApart` | crates/persistence/src/monitoring.rs:1777-1944 | One open job for each path, filed under the key of its own path, makes the own paths of all claims of a root different. |
| `StableCatalog.CatalogedWasPut` | crates/application/src/monitoring.rs:1271-1417 | Whatever the replayed history leaves in the catalog was put there by a stored scan of the world at a known step; for each job of its batch whose own path it is, the last two recorded looks of that job were both at that path, at different steps before the scan, and saw the same size and time. |
| `MonitoringCycle.Monitor.CatalogIsStable` | crates/application/src/monitoring.rs:953-1417 | Over any run of cycles the catalog holds only such entries: every method keeps the catalog equal to its history. |
| `ExtractionPool.StepKeepsInvariant` | crates/application/src/content.rs:227-308 | Every step of any worker or the receiver keeps each index in at most one place and the history honest. |
| `ExtractionPool.RunKeepsInvariant` | crates/application/src/content.rs:227-308 | Every interleaving of any length does. |
| `ExtractionPool.StepCosts` | crates/application/src/content.rs:245-308 | Every step uses something up: no interleaving runs for ever. |
| `ExtractionPool.NoDeadlock` | crates/application/src/content.rs:245-308 | Until the page is finished some step other than a cancellation is enabled, with the bounded channel full or empty. |
| `ExtractionPool.StoredAtMostOnce` | crates/application/src/content.rs:245-308 | In every reachable state each candidate is stored at most once. |
| `ExtractionPool.CompletePageStoresAll` | crates/application/src/content.rs:245-308 | A page that finished without error and cancellation stored each candidate exactly once. |
| `ExtractionPool.ProcessPage` | crates/application/src/content.rs:227-308 | Under any scheduler the page finishes, in a state with all of the above. |
| `ExtractionPool.Progress.Apply` | crates/application/src/content.rs:515-533 | Exactly the counter of the outcome goes up, saturating, and completed stays the sum of the five. |
| `ExtractionPool.Progress.ApplyAll` | crates/application/src/content.rs:276-305 | Each counter goes up by the stored results with its outcome. |
| `ExtractionPool.AnalyzeScanContent` | crates/application/src/content.rs:63-122 | A batch that ends as completed stored every candidate of every page exactly once, any other none twice; a failed one returns the first failure; the progress counts what was stored. |
| `Simulation.SameKeyExactly` | crates/simulation/src/lib.rs:350-352 | With one separator two paths have one key exactly when they differ in case only. |
| `Simulation.MixedSeparatorsExactly` | crates/simulation/src/lib.rs:92-286 | A scanned path with `/` and a displayed destination with a backslash meet only when neither has a folder. |
| `Simulation.AddDirectories` | crates/simulation/src/lib.rs:236-254 | The folders above a destination are planned once each, parents first, unless they exist. |
| `Simulation.Simulate` | crates/simulation/src/lib.rs:92-286 | Without a blocker exactly when every pending item is clean: settled, placeable, free and apart from the others; the moves and directories are then exactly the needed ones. |
| `Simulation.CleanDestinationsAreApart` | crates/simulation/src/lib.rs:92-286 | No two destinations of an unblocked revision are filed alike. |
| `Simulation.CleanDestinationsAreFree` | crates/simulation/src/lib.rs:92-286 | None is that of a scanned file, where the separators let the keys tell. |
| `ProposalState.SealedMovesThePending` | crates/operations/src/lib.rs:780-916 | A revision that can be sealed moves exactly its pending items, none skipped. |
| `ProposalState.CompilesExactly` | crates/operations/src/lib.rs:780-916 | With the unblocked simulation of the revision on a known scan and known folders, compiling fails exactly when nothing is to be moved, and what it makes are the steps of that simulation. |
| `ProposalState.SealedExactly` | crates/application/src/lib.rs:685-714 | In every reachable state sealing fails only for an open review, a missing or blocked simulation, or nothing to move; what is sealed are the steps of the stored simulation, made from the scan and folders on record for it. |
| `ProposalState.ApplicationState.ScanWorkspace` | crates/application/src/lib.rs:292-331 | A scan leaves proposals, simulations and plans alone. |
| `ProposalState.ApplicationState.GenerateProposal` | crates/application/src/lib.rs:552-590 | A fresh first revision without a simulation, exactly when the workspace was scanned. |
| `ProposalState.ApplicationState.SimulateProposal` | crates/application/src/lib.rs:592-651 | Stores the outcome for the current revision and puts on record the scan, the folders and the count of changes it was made at; refused only for an unknown proposal, an unscanned workspace, or an item without a scanned file. |
| `ProposalState.ApplicationState.ReviewItem` | crates/application/src/lib.rs:653-674 | Decides exactly one item, counts revision and changes on and drops the simulation; otherwise nothing changes and the item could not be decided. |
| `ProposalState.ApplicationState.PollMonitoring` | crates/application/src/lib.rs:333-366 | Change hints make what would move stale, count a change of each proposal of that workspace and drop its simulation, and nothing else. |
| `ProposalState.ApplicationState.SealPlan` | crates/application/src/lib.rs:685-714 | Sealed exactly when the review is complete, the stored simulation is unblocked and something moves; never refused as stale. The plan has exactly the steps of the stored simulation, no decision or hint came after it, and what it was made from goes on record with the plan. |
| `ProposalState.ApplicationState.ApprovePlan` | crates/application/src/lib.rs:716-736 | Approved exactly with the content that was sealed; no plan ever changes its content or loses its approval. |
| `ProposalState.StaleIsFinal` | crates/domain/src/proposal.rs:105-173 | A proposal with a stale item that would move can never be sealed: the item can no longer be decided. |
| `ProposalState.PolledIsStale` | crates/application/src/lib.rs:333-366 | A poll with hints makes such an item of every pending one. |
| `ProposalState.SealedPlanIsSafe` | crates/operations/src/lib.rs:780-916 | By the scan and the folders on record for a sealed plan: it places every accepted item from where the scan has its file, at destinations apart from each other, and creates exactly the missing folders, parents first. |
| `FolderBundle.ComponentsOfJoin` | crates/organizer/src/organization.rs:944-950 | Splitting the text of a path gives the path back. |
| `FolderBundle.CountFolders` | crates/organizer/src/organization.rs:814-853 | The counts and the displayed name of every top folder are those of all inputs under it. |
| `FolderBundle.KindIgnoresOrder` | crates/organizer/src/organization.rs:814-875 | Two listings of the same inputs give a folder the same counts and the same kind. |
| `FolderBundle.SubtreeIsKept` | crates/organizer/src/organization.rs:892-899 | The folders below the top one are kept whole, under a folder named as the top one but for case. |
| `FolderBundle.PlacesAreInjective` | crates/organizer/src/organization.rs:892-899 | Two files get one place and name exactly when, but for the case of the top folder, they have one path. |
| `FolderBundle.DraftsMeetExactly` | scripts/patch_whole_user_folder_organization.py:82-217 | Two rewritten, untruncated drafts have one destination and name exactly when their sources agree but for the case of the top folder. |
| `FolderBundle.TruncatedPlacesMeetExactly` | scripts/patch_whole_user_folder_organization.py:171-180 | Cut at the depth limit or whole, two places are one exactly when their top folders are one but for case and what is left of the folders is the same. |
| `FolderBundle.MovedDraftsMeetExactly` | scripts/patch_whole_user_folder_organization.py:82-217 | Any two drafts that the policy moves, truncated or not, have one destination and name exactly when their sources have one name, one top folder but for case, and the same folders as far as they are left. |
| `FolderBundle.TruncationMerges` | scripts/patch_whole_user_folder_organization.py:171-180 | Such files exist at the depth limit of 32: different sources, one destination and name. |
| `FolderBundle.ApplyFolderBundlePolicy` | crates/organizer/src/organization.rs:801-942 | Every draft is rewritten by the counts of all inputs, decided ones and stale ones not at all, too long ones only marked. |
| `FolderSummary.CountsIgnoreOrder` | apps/desktop/src/oneClickSummary.ts:64-78 | The count at a path does not depend on the order of the operations. |
| `FolderSummary.FolderTree.AddFolderPath` | apps/desktop/src/oneClickSummary.ts:64-78 | The mutable tree stays a trie whose count at every node is the number of added paths that start with its path, without a missing, doubled or idle node. |
| `FolderSummary.TreeShowsCounts` | apps/desktop/src/oneClickSummary.ts:85-104 | The finished tree shows at every path exactly how many operations lie at or under it, whatever the order of siblings. |
| `FolderSummary.TreesAgree` | apps/desktop/src/oneClickSummary.ts:64-104 | Trees of the same paths, added in any order, have nodes at the same places, with the same counts and children. |
| `FolderSummary.RootsSum` | apps/desktop/src/oneClickSummary.ts:155-181 | The counts that the roots of the finished tree show sum to the number of added paths, whatever the order of siblings. |
| `FolderSummary.CategoriesSum` | apps/desktop/src/oneClickSummary.ts:106-146 | Every countable operation is in exactly one category, so the categories sum to the files to organize. |
| `FolderSummary.Summarize` | apps/desktop/src/oneClickSummary.ts:155-181 | The summary counts exactly the countable operations, in total, per category and in the tree, and what the roots of its tree show adds up to the total. |
| `FolderSummary.SummariesAgree` | apps/desktop/src/oneClickSummary.ts:155-181 | Two summaries of the same operations in any order have the same totals, categories and trees, up to the order of siblings. |
| `MindMap.IncludeAncestors` | apps/desktop/src/OrganizationPreviewView.tsx:1008-1020 | Terminates on any parent links, cyclic ones too, with the least set that contains the matches and is closed under parent. |
| `MindMap.FolderFor` | apps/desktop/src/OrganizationPreviewView.tsx:866-887 | The folders of a destination exist under the root, made at most once, and spell it. |
| `MindMap.GivenFolders` | apps/desktop/src/OrganizationPreviewView.tsx:853-860 | The folder map starts with the root under the empty path and has every given folder path. |
| `MindMap.AddOperation` | apps/desktop/src/OrganizationPreviewView.tsx:862-899 | Exactly one file node is added, under the folders that spell the destination; the forest stays a forest. |
| `MindMap.BuildMindMapNodes` | apps/desktop/src/OrganizationPreviewView.tsx:842-902 | A forest that keeps the given nodes, with exactly one node for every operation, each made file under folders that spell its destination when its segments are plain. |
| `MindMap.RecomputeNodeCounts` | apps/desktop/src/OrganizationPreviewView.tsx:929-940 | Each child count is the larger of the given one and the number of direct children; nothing else changes. |
| `KnowledgeMap.KnowledgeModel.AddRow` | apps/desktop/src/knowledgeMapModel.ts:110-219 | A row changes exactly the root, its context and the nodes it mentions, and adds exactly their edges. |
| `KnowledgeMap.BuildKnowledgeMapModel` | apps/desktop/src/knowledgeMapModel.ts:94-235 | With distinct files every edge joins nodes of the map, below the contexts a node is in a context exactly when an edge comes from it, and each node has the files, contexts and review count of its members. |
| `KnowledgeMap.MembershipsExactly` | apps/desktop/src/knowledgeMapModel.ts:94-235 | A file is in a node, in a context, exactly when its row mentions the node and has the context. |
| `KnowledgeMap.NodesExactly` | apps/desktop/src/knowledgeMapModel.ts:94-287 | The files of a node are those of the rows that mention it, in any order of the rows, and its review count is the number of flagged ones. |
| `KnowledgeMap.ContextsPartition` | apps/desktop/src/knowledgeMapModel.ts:129-140 | The context nodes partition the files of the root. |
| `IdentityRun.OrderedPairIsUnordered` | crates/application/src/identity.rs:283-289 | Two pairs have one key exactly when they have the same members. |
| `IdentityRun.AssessedOnceMeans` | crates/application/src/identity.rs:224-229 | No unordered pair was assessed twice, in either order, and the assessed pairs are as many as the assessments. |
| `IdentityRun.Run.AssessPair` | crates/application/src/identity.rs:220-248 | A pair is assessed exactly when it was not before; comparisons count the distinct pairs and bound the candidates and links created. |
| `IdentityRun.Run.ProcessOccurrence` | crates/application/src/identity.rs:211-249 | Only pairs worth comparing are assessed, and all of them unless cancelled, faulty or over the limit of 64. |
| `IdentityRun.Run.ProcessFile` | crates/application/src/identity.rs:203-259 | A file counts as resolved as soon as it is synchronised, and its occurrences are then those of its analysis. |
| `IdentityRun.Run.ProcessRun` | crates/application/src/identity.rs:178-263 | The run ends, by the number of unresolved files; uncancelled and without a fault it resolved every file and assessed every pair of related active occurrences with one in a file of the run. |
| `IdentityRun.Run.Resolve` | crates/application/src/identity.rs:32-80 | Completed means no fault, no cancellation and complete coverage; in every case only related pairs of different files were assessed. |
| `IdentityRun.AssessedExactly` | crates/application/src/identity.rs:178-263 | When no analysis superseded an occurrence, the assessed pairs are exactly the related ones with a member in the run: the order of files plays no part. |
| `ConsumerScan.AccountedOnce` | scripts/apply-one-click-v3.py:50-187 | Directories, skipped items and persisted files are all entries visited, each once, files in order. |
| `ConsumerScan.BatchesAddUp` | scripts/apply-one-click-v3.py:50-187 | Batches and buffers together are at every moment everything that was collected, in order. |
| `ConsumerScan.BatchesAreBounded` | scripts/apply-one-click-v3.py:69-187 | As scripted, no batch exceeds 256 by more than the entries that skip the full test. |
| `ConsumerScan.AliasesAreOneBatch` | scripts/apply-one-click-v3.py:109-120 | The 256 is no bound there: any number of aliases ends in one batch. |
| `ConsumerScan.CurrentBatchesAreFull` | crates/application/src/scanner.rs:973-990 | Checked after every entry, as the scanner has it now, every batch has exactly 256 and the rest fewer. |
| `ConsumerScan.FormsWriteTheSame` | crates/application/src/scanner.rs:346-512 | Both forms of the loop write the same files and issues in the same order. |
| `ConsumerScan.Scan.Run` | scripts/apply-one-click-v3.py:40-198 | A scan that is not failed wrote everything collected from the entries it visited, its counters add up to them, and a failed one wrote a prefix. |
| `ConsumerScan.Scan.Flush` | scripts/apply-one-click-v3.py:250-268 | Both buffers are written at once or not at all; the totals count what was written. |

## Left out

Of the executor:
- Journal, consent, authorization, digests, request binding and the platform workers: the worker's answer is a parameter of a run.
- Case-sensitive volumes: paths are compared without case, as on NTFS and APFS.
- Renames that change only case, which the default policy does not allow.
- Changes to the disk by other programs during a run, beyond a worker that refuses or whose answer is lost.
- Path rules other than separators, empty names, `.`, `..` and drive prefixes: they are one verdict of a proposal. Protected application folders and hashing limits are part of that verdict.
- Errors while reading directories during the walk: they count as not safe, which is what the caller makes of them.

Of monitoring:
- Watchers, hints draining, startup reconciliation, activity counters and root status other than overflowed.
- The order in which due jobs are listed, and several workspaces in one queue.
- MonitoringCycle.Monitor.StoreScan: the paths that a scan visits are an input, so that duplicate candidates are among the scanned files without being searched for.
- StableCatalog.OwnPathsAreStable: speaks of the jobs' own paths as they are spelled, because duplicate candidates of a batch have no stability sample and the drift test compares spellings.
- Reconciliation.ReconcileRootGap: asks for keys that differ, because the code files rows under lower-cased paths and later ones replace earlier ones.
- Reconciliation.WorkedOffReachesTarget: what working off the reports does to the catalog is described by its result, which always exists, and not run through the cycle again.
- Catalog.MovedFileIsNeverLost: identities of one root only; a file that moves between roots is not followed.

Of extraction and proposals:
- The extraction engine, encodings, limits and retries of single files; an unknown status string, which no engine result has.
- ExtractionPool.AnalyzeScanContent: the candidate list is fixed during a batch and a cancellation is not withdrawn.
- The organizer that proposes items, labels, confidences and explanations; the volume checks of the simulation are one verdict of a scanned file.
- Search, and the persisted proposals outside the application state.

Of the derived structures:
- Labels, icons, confidences, sorting by locale and Unicode case folding: orders and normalisations are parameters or ASCII.
- MindMap.BuildMindMapNodes: identifiers are values, not texts, so that a made identifier never equals a given one; review and conflict counts are not kept.
- KnowledgeMap.BuildKnowledgeMapModel: node and edge identifiers are values; which context, type and year a row has is an input. It asks for distinct files, as the caller supplies.
- FolderBundle.DraftsMeetExactly: asks that the name of an input is the last component of its path; machine paths are one verdict.
- FolderBundle.MovedDraftsMeetExactly: asks the same, and a depth limit of at least 4, which the limit of 32 of this mode is.
- FolderSummary.TreeShowsCounts: folder names are trimmed of spaces, tabs and line ends only, where the code trims every Unicode space.
- The expansion of matches in the tree view, which walks one chain of parents as `includeAncestors` does.
- IdentityRun.Run.ProcessRun: similarity scores are a parameter, merged identities are not kept, and a cancellation is not withdrawn; a flag that flips back could keep the loop going without progress.
- ConsumerScan.Scan.Run: counters do not saturate, byte totals and progress events are not kept, and the recursive scan is not modelled.
