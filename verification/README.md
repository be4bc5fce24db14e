# A verified model of SyncHub's synchronization core

SyncHub keeps the configuration, skills and sessions of coding agents in step
between several machines, through one Git repository. This project models the
parts of it that decide what happens to a user's files, and proves what they
promise:

| files | what is modelled |
|---|---|
| `PortableMerge.dfy` | the recursive three-way merge of structured documents |
| `Reconcile.dfy`, `ResourcePlanning.dfy` | the plan of a pass: per-path decisions, guards, first-run direction |
| `SyncPass.dfy`, `SyncEngine.dfy` | one pass of the engine, as rules for each path and as the loops over maps that the source runs; whole `SyncOnce` calls with rejected pushes |
| `SyncSafety.dfy`, `SyncRuns.dfy`, `SyncRunSafety.dfy`, `SyncRetention.dfy`, `SyncConvergence.dfy`, `SyncPush.dfy`, `SyncStranded.dfy` | safety, retention, convergence and publication over every run of many machines and their clones |
| `BaseStore.dfy` | the content-addressed store of merge bases, with operations cut short and damaged objects |
| `DocumentLeaves.dfy`, `PathResolver.dfy`, `PortableConfig.dfy`, `PortableLens.dfy` | which part of a configuration document is shared, and the two lens laws |
| `PortableReceipt.dfy`, `PortableSync.dfy` | what receiving a document gives back on a first run and after a merge, and what a pass makes of it |
| `ConflictJournal.dfy`, `ConflictResolution.dfy`, `ConflictOutcome.dfy`, `ConflictStore.dfy` | the transaction journal of conflict resolution, with crashes |
| `ConflictMirror.dfy` | creating conflict bundles, and mirroring those of the clone after every pull |
| `SharedLibrary.dfy` | the ownership records of the shared library, with crashes |
| `Scheduler.dfy`, `TrayFeedback.dfy`, `Preview.dfy` | three concurrent state machines, interleaved at their critical sections |
| `Collector.dfy`, `RepoNamespace.dfy`, `RepoLayout.dfy`, `InstallExecutor.dfy` | directory traversal through links, repository paths, install plans |
| `Strings.dfy`, `Documents.dfy` | the vocabulary they share |

Code that works step by step is modelled as classes and methods with loops, and
each method is proved equal to a specification function, or to satisfy a
relation, on which the theorems are then proved. A digest stands for the content
it identifies: SHA-256 is taken to be collision-free. Content of a structured
resource is its parsed document.

Where a promise turned out to fail for some inputs, the project proves exactly
when it holds:

* A synchronization that uses up its push attempts, or whose push breaks for another
  reason, leaves its commit in the clone. The next pull replays it, but it is never
  pushed on its own, because only the working tree is asked for changes; and the
  retry of a later push throws it away with the rest. A local file is overwritten or
  deleted only while it holds the machine's base, or by a merge, in every run; but the
  base may then be nowhere else. What a run promises beyond that holds exactly as long
  as the clone that was pulled has nothing unpushed, which is what `AheadOfUpstream`
  would answer:
    * a push is safe for the repository's files, whatever the machine, if and only if
      the clone has nothing unpushed at the path (`SyncRunSafety.PushIsSafeExactly`);
    * a retry of a push loses no version of a path, whatever the machine, if and only
      if the clone holds no unpushed version of it (`SyncRetention.RetryIsSafeExactly`),
      and a version that was recorded and then thrown away is gone with the next clean
      call (`SyncRetention.DisplacedVersionIsLost`);
    * a clean pass always ends with machine and repository in agreement, if and only
      if the pulled tree has nothing unpushed at the path
      (`SyncConvergence.EndsInStepExactly`, `SyncConvergence.VisitExactly`);
    * a reported success has published what it recorded, if and only if the pulled
      clone had nothing unpushed or the pass committed something
      (`SyncPush.PublishedExactly`);
    * one run from a fresh clone breaks all four
      (`SyncStranded.LastAttemptCanLoseAPush`, `SyncStranded.ConvergenceCanFail`,
      `SyncStranded.SafetyCanFail`, `SyncStranded.ResetLosesAnEdit`); in the modelled
      runs only an attempt that gives up, or whose push breaks, leads there
      (`SyncRuns.RunKeepsPublished`).
* Putting a merge base again does not repair its object: it can be read back exactly
  if the object was missing or intact (`BaseStore.PutReadsExactly`). Damage is never
  read as content (`BaseStore.ReadsExactly`).
* A conflict batch is atomic under crashes exactly when a transaction journal
  left over from an earlier batch is harmless, that is, when every path in it still
  is in the state that the journal describes; the batch id in the journal is never
  compared, so a committed batch can be taken back
  (`ConflictResolution.CrashAtomicExactly`,
  `ConflictResolution.CommittedBatchCanBeTakenBack`, and on concrete disks
  `ConflictResolution.ResolutionIsTakenBack`). A batch interrupted while
  it removes conflict bundles is rolled back without them
  (`ConflictResolution.ConflictsKeptExactly`).
* Restoring a shared document keeps a value that is not shared exactly when no
  value that is written lies above or below it, and no shared value of the base that
  the received document lacks lies above it. After a merge that can happen, so a merge
  can lose a value that is not shared (`PortableLens.UnsharedLeafSurvivesExactly`,
  `PortableReceipt.MergeCanLoseUnsharedLeaf`).
* A computer shares exactly what it has received if and only if every path returns it
  (`PortableLens.PutGetExactly`): on a first run each leaf that is shared here and not
  received must be in the way of one that is (`PortableReceipt.FirstPutGetExactly`);
  after a merge only the leaves of the merged document matter
  (`PortableReceipt.MergedPutGetExactly`). Otherwise the next pass pushes the
  difference (`SyncSafety.UnfaithfulReceiptIsPushed`).
* A repository path leads back to its resource exactly when that resource is not
  a legacy one shared under another name (`RepoNamespace.PathFindsSpecExactly`).
* The first run's "use local" direction makes both sides equal exactly when the base
  does not already record the local content while the repository has left it
  (`SyncSafety.UseLocalExactly`). "Use cloud" also needs the local file to share what
  it received (`SyncSafety.UseCloudExactly`); for a configuration document with its
  leaves, see `PortableSync.FirstUseCloudExactly` and the input of
  `PortableSync.UseCloudCanKeepLocalLeaves`.
* A stored preview was made from the saved settings exactly unless a first
  synchronization has written back older ones (`PreviewRuns.SyncKeepsCurrentExactly`,
  `PreviewRuns.StoredPreviewCanBeStale`).
* Two computers that meet the same conflict create the same bundle id. The retry of
  the one whose push is rejected can mirror the other's bundle exactly if both were
  created at the same moment, and otherwise every later call fails
  (`ConflictMirror.RetryCanMirrorExactly`, `ConflictMirror.DisagreementStays`).

Verify everything with `dafny verify dfyconfig.toml`.

## Model

| member | source | states |
|---|---|---|
| PortableMerge.MergeMaps | internal/portablemerge/merge.go:169-198 | the loop over the keys, in whatever order the map yields them, computes the one merged document, and reports a conflict exactly when some key conflicts |
| PortableMerge.MergeNode | internal/portablemerge/merge.go:200-222 | one key: equal sides, then the side that moved, then two objects key by key, else a conflict |
| PortableMerge.MergeThreeWay | internal/portablemerge/merge.go:200-222 | at every key path of an unconflicted merge: agreement is kept, an unmoved side yields to the other, and every value that is not a merged object was on one of the sides |
| PortableMerge.MergeConflictsIffClash | internal/portablemerge/merge.go:183-222 | a merge conflicts if and only if some key path holds three pairwise different values that are not two objects over a missing or object base |
| PortableMerge.ConflictHasClash | internal/portablemerge/merge.go:200-222 | every conflict has such a path |
| PortableMerge.ClashConflicts | internal/portablemerge/merge.go:200-222 | every such path makes the whole merge conflict |
| PortableMerge.MergeSymmetric | internal/portablemerge/merge.go:169-222 | local and remote can be swapped |
| PortableMerge.MergeAbsorbs | internal/portablemerge/merge.go:169-222 | merging the result again with the same remote reproduces it |
| PortableMerge.MergeToBase | internal/portablemerge/merge.go:169-222 | the result is the base only when neither side had moved |
| PortableMerge.MergeOneSided | internal/portablemerge/merge.go:169-222 | a merge with one unmoved side, or with equal sides, is the other side's document |
| Reconcile.UnionKeys | internal/syncengine/reconcile.go:137-150 | the paths of the three snapshots, each once, in ascending order |
| Reconcile.ReconcileWithBlocked | internal/syncengine/reconcile.go:62-106 | the loop computes the plan that the following rows characterize |
| Reconcile.PlanContains | internal/syncengine/reconcile.go:62-106 | actions are in path order, at most one per path, and exactly the decided ones |
| Reconcile.PlanMeaning | internal/syncengine/reconcile.go:62-135 | for each kind of action, if and only if: which sides moved from the base, which exist, and whether the path is blocked |
| Reconcile.PlanQuiet | internal/syncengine/reconcile.go:62-135 | the plan is empty if and only if the sides agree on every unblocked path and no blocked path is in the repository |
| ResourcePlanning.WithoutPrefixes | internal/syncengine/resources.go:422-442 | keeps exactly the paths under none of the prefixes |
| ResourcePlanning.SplitRemoteSnapshot | internal/syncengine/resources.go:28-60 | keeps exactly the owned paths and the engine's own metadata |
| ResourcePlanning.PrepareResourcePlan | internal/syncengine/planning.go:34-61 | the guarded plan, from filtered copies of the snapshots |
| ResourcePlanning.PlanGuards | internal/syncengine/planning.go:34-61 | ordered actions; a blocked path is removed from the repository exactly when the repository holds it; no other action touches a blocked, skipped or metadata path, or one that no resource owns |
| ResourcePlanning.ApplyFirstSyncStrategy | internal/syncengine/planning.go:72-115 | the loop re-labels each action as the chosen direction says |
| ResourcePlanning.FirstSyncMembers | internal/syncengine/planning.go:72-115 | the direction keeps paths, order and number of actions |
| SyncEngine.PlannedActions | internal/syncengine/engine.go:261-277 | the actions of a pass are exactly the kinds that the per-path rules decide |
| SyncEngine.Replica.RestoreBytes | internal/syncengine/resource_apply.go:85-150 | a structured document is restored into the local one over the stored merge base, any other content replaces the file; a failure changes nothing |
| SyncEngine.Replica.MergeResource | internal/syncengine/engine.go:680-783 | a merge that is received by the local file, a conflict bundle or a failure, on one path and no other |
| SyncEngine.Replica.ApplyAction | internal/syncengine/engine.go:323-424 | one turn of the apply loop follows the per-path rule and touches no other path |
| SyncEngine.Replica.ApplyActions | internal/syncengine/engine.go:322-439 | every planned path is acted on once, from its state before the loop |
| SyncEngine.Replica.KeptPaths | internal/syncengine/engine.go:302-321 | exactly the conflicted, held and skipped paths keep their base whatever the plan does |
| SyncEngine.Replica.PreserveSnapshot | internal/syncengine/resources.go:444-457 | kept paths take their previous entry, all others the current one |
| SyncEngine.Replica.CaptureRepoPreserving | internal/state/base.go:99-146 | kept paths keep their stored merge base; every other path has the repository's content, or none; the object files behind this map are in `BaseStore` |
| SyncEngine.Replica.SaveBases | internal/syncengine/engine.go:520-540 | state.json and the merge bases after a pass |
| SyncEngine.Replica.PullRebase | internal/gitclient/gitclient.go:123-126 | fetches the head and replays unpushed commits on it; a rebase that fails stops in the middle, and no later pull of that clone succeeds |
| SyncEngine.Replica.Attempt | internal/syncengine/engine.go:261-540 | one attempt after its pull: accepted, rejected, or with nothing to push |
| SyncEngine.Replica.SyncOnce | internal/syncengine/engine.go:61-67 | the whole call, three attempts by default, equals the specified outcome for every sequence of competing pushes |
| SyncSafety.OverwritesOnlyBase | internal/syncengine/engine.go:322-424 | a side is overwritten or deleted only while it holds the machine's base, or by a successful merge, which the local file may receive as something else |
| SyncSafety.ClashKeepsEverything | internal/syncengine/engine.go:343-372 | a merge that does not succeed changes neither side nor the base, and a conflict keeps the three versions |
| SyncSafety.ConflictFreezes | internal/syncengine/engine.go:326-331 | a path with an unresolved conflict keeps it and its base; its sides change only through a merge or a blocked file's removal |
| SyncSafety.WithheldIsLeftAlone | internal/syncengine/planning.go:48-57 | blocked and skipped files and install manifests are never written on this machine; a skipped path stays as it is on both sides and loses its base entry only; a blocked file leaves the repository |
| SyncSafety.UnrecordedIsNotOverwritten | internal/syncengine/reconcile.go:81-104 | a local file without a base entry is never pulled over or deleted, only merged |
| SyncSafety.MergedFileObeysLaw | internal/syncengine/engine.go:706-749 | a structured file that a pass has merged obeys the three-way law at every path, against the stored merge base |
| SyncSafety.WholeFilesConflict | internal/portablemerge/merge.go:82-92 | two different edits of a file that is not merged leave both sides alone and a bundle of exactly the three versions |
| SyncSafety.MissingVersionConflicts | internal/syncengine/engine.go:713-745 | so does a deletion against an edit, or two creations of anything but structured files, with what is missing stored empty |
| SyncSafety.WholeFilesAreNotMixed | internal/portablemerge/merge.go:82-92 | a side of such a file changes only to the other side's content, and only if one side holds the recorded base or the merge base |
| SyncSafety.TextFilesMerge | internal/syncengine/engine.go:743-783 | two edits of a text file become what the text merge says of the three versions, on both sides |
| SyncSafety.StructuredFilesConflictExactly | internal/syncengine/engine.go:706-749 | two edits of a structured document conflict, if and only if they clash somewhere over the stored base, or over an empty document |
| SyncSafety.KeptExactly | internal/syncengine/engine.go:302-448 | a pass keeps the old base of a path, if and only if the path has a conflict, its merge does not succeed, or its local file cannot be written |
| SyncSafety.UnwritableFileWaits | internal/syncengine/engine.go:385-413 | when the local file cannot be written or removed, the repository's change waits, this machine's deletion goes through there, and the base stays |
| SyncSafety.CompletedPassAgrees | internal/syncengine/engine.go:520-537 | a pass that kept no old base leaves the base, the merge base and the repository equal on the path; and the machine, if and only if its file shares what it received |
| SyncSafety.UnfaithfulReceiptIsPushed | internal/syncengine/engine.go:322-540 | if it does not, the next pass pushes what the machine kept over what it was to receive |
| SyncSafety.UnfaithfulPullIsMerged | internal/syncengine/engine.go:499-516 | and a retry after a rejected push merges it as if the user had made the difference |
| SyncSafety.UnchangedSideOnlyPulls | internal/syncengine/reconcile.go:81-104 | a machine that holds its base does not change the repository |
| SyncSafety.MergeContentsAbsorb | internal/syncengine/engine.go:706-749 | a merge result can be merged again with either side, and is a way back to the base only if a side still held it |
| SyncSafety.RejectedPushIsHarmless | internal/syncengine/engine.go:499-516 | after a rejected push the second attempt ends where the first would have, if the repository's version is the same and the local file shares what it received or was not written |
| SyncSafety.FailedWriteIsCompleted | internal/syncengine/engine.go:385-413 | the pass after a failed local write gives the path what the first one meant to, if and only if a merge did not give the machine its own content, or that content is shared again when received |
| SyncSafety.UseCloudExactly | internal/syncengine/planning.go:78-94 | taking the cloud's version makes both sides the cloud's, if and only if the base does not already record it while the local side has left it, and the local file shares what it received |
| SyncSafety.UseLocalExactly | internal/syncengine/planning.go:95-111 | the same for this machine's version |
| SyncSafety.FirstMergeDeletesNothing | internal/syncengine/planning.go:112-114 | merging on the first run deletes nothing on either side |
| SyncRuns.StepKeepsInv | internal/syncengine/engine.go:499-540 | every step, also one that gives up or fails to rebase, keeps base entries and merge bases equal, and both among the versions that git has ever committed |
| SyncRuns.RunKeepsInv | internal/syncengine/engine.go:499-540 | so does every run of edits, foreign commits, pulls and attempts of any number of machines and clones |
| SyncRuns.RunKeepsPublished | internal/syncengine/engine.go:499-516 | as long as no last push is rejected and no push breaks, every clone has nothing unpushed, and every base of every machine has been in the repository |
| SyncRuns.CallIsRun | internal/syncengine/engine.go:61-67 | a whole call, with any competing pushes, leaves the machine, its clone and the repository as the steps of such a run do |
| SyncRunSafety.StepIsSafe | internal/syncengine/engine.go:322-448 | in every reachable world a step overwrites or deletes a local file only if it holds that machine's base or by this step's merge, and touches no other machine; and a repository file likewise, if the clone has nothing unpushed at the path |
| SyncRunSafety.EveryRunIsSafe | internal/syncengine/engine.go:322-448 | every engine step of every run is safe in this sense |
| SyncRunSafety.PersistentRunIsSafe | internal/syncengine/engine.go:322-516 | in a run in which no call gives up, every step is safe on both sides |
| SyncRunSafety.PushIsSafeExactly | internal/syncengine/engine.go:474-499 | whatever the machine and its files, pushing from a clone is safe at a path, if and only if the clone has nothing unpushed there |
| SyncRetention.NoVersionIsLost | internal/syncengine/engine.go:322-540 | a version that a machine's file holds stays in that file, in the repository's history or in a merge whose result was kept, unless its user replaces it; if no step takes a version of the path out of a clone that the repository never held, or throws away a merge that was not received as it was |
| SyncRetention.StepKeepsBacked | internal/syncengine/engine.go:322-540 | such steps keep every base entry in the repository's history or in the machine's own clone |
| SyncRetention.RetryIsSafeExactly | internal/syncengine/engine.go:499-516 | the reset of a retry loses no version of a path, in any world and for any machine, if and only if the clone holds no unpushed version of it |
| SyncRetention.ResetDisplacesExactly | internal/syncengine/engine.go:510-516 | in a given world: it loses one, if and only if the clone holds one that the repository never held |
| SyncRetention.DisplacedVersionIsLost | internal/syncengine/engine.go:322-516 | a recorded version whose only other copy a retry has thrown away is in no file, clone, merge or history after the next clean call |
| SyncRetention.PersistentRunLosesNothing | internal/syncengine/engine.go:322-540 | in a run in which no step gives up, nothing is lost but what a discarded merge was not received as |
| SyncConvergence.VisitRestsExactly | internal/syncengine/engine.go:322-540 | after an undisturbed saved pass the machine holds its base, if and only if its file shares what it received |
| SyncConvergence.VisitExactly | internal/syncengine/engine.go:322-540 | after an undisturbed clean pass the machine and its clone agree; and they agree with the repository, if and only if the pulled tree had nothing unpushed at the path or the pass committed something |
| SyncConvergence.EndsInStepExactly | internal/syncengine/engine.go:474-499 | for a pulled tree: every clean pass of every machine ends in step with the repository, if and only if the tree has nothing unpushed at the path (or a conflict about it, over which no pass is clean) |
| SyncConvergence.VisitAt | internal/syncengine/engine.go:322-540 | with nothing unpushed, an undisturbed clean pass brings a machine in step, and changes the repository only if the machine had something to contribute |
| SyncConvergence.VisitedMachineRests | internal/syncengine/engine.go:322-540 | a machine that has visited has nothing more to contribute, whatever the others do and whatever the clones hold |
| SyncConvergence.RestingWorldIsStable | internal/syncengine/engine.go:322-540 | once every machine has visited, the repository no longer changes at the path |
| SyncConvergence.TwoRoundsConverge | internal/syncengine/engine.go:322-540 | from any world in which no clone is ahead: after every machine has visited twice, all files, bases, merge bases and the repository agree on the path |
| SyncConvergence.PersistentRunConverges | internal/syncengine/engine.go:322-540 | so every run in which no call gives up can be followed by two clean rounds that make everything agree |
| SyncConvergence.NothingLeftToDo | internal/syncengine/reconcile.go:62-106 | then no pass of any machine plans anything for it |
| SyncConvergence.StrandedForever | internal/gitclient/gitclient.go:225-233 | a machine that has recorded an unpushed commit and has nothing else to do never gets in step, however often it synchronizes successfully |
| SyncPush.PublishedExactly | internal/syncengine/engine.go:474-518 | a reported success has published what it recorded, if and only if the pulled clone had nothing unpushed or the pass committed something |
| SyncPush.OnlyExhaustedAttemptsStayUnpushed | internal/syncengine/engine.go:499-516 | a clean clone stays clean unless the last attempt is rejected, and more attempts than competing pushes always succeed |
| SyncPush.StoppedForever | internal/gitclient/gitclient.go:123-126 | a pull whose rebase stopped makes every later call fail and change nothing |
| SyncStranded.LastAttemptCanLoseAPush | internal/gitclient/gitclient.go:225-233 | a concrete run: success is reported and recorded for a version that the repository never received |
| SyncStranded.ConvergenceCanFail | internal/syncengine/engine.go:474-518 | a concrete run from a fresh clone to a machine that never gets in step again |
| SyncStranded.SafetyCanFail | internal/syncengine/engine.go:474-518 | and one more edit of another file then overwrites a repository version that never was the base, without any merge |
| SyncStranded.ResetLosesAnEdit | internal/syncengine/engine.go:510-516 | or, if another commit beats that push, its retry and the next call lose the user's edit: it is in no file, clone, merge or history |
| BaseStore.Store.Put | internal/state/base.go:26-45 | refused exactly for an invalid path or index; otherwise object first, index last, and every state in between has the old index and loses no object |
| BaseStore.Store.CaptureRepoPreserving | internal/state/base.go:99-146 | refused exactly when a path is invalid or a file is missing; otherwise all objects first, index last |
| BaseStore.Store.Get | internal/state/base.go:47-77 | absent, found, missing object or failed integrity check |
| BaseStore.ReadsExactly | internal/state/base.go:26-165 | over every run, with operations cut short and objects damaged in any way: reading gives the content last put or captured, and nothing else, exactly if its object is there and intact |
| BaseStore.UndamagedReads | internal/state/base.go:26-165 | without damage every path reads as promised, and every index ever saved stays readable with the same contents: no object is lost |
| BaseStore.PutReadsExactly | internal/state/base.go:148-165 | a put content can be read back, if and only if its object was missing or intact; a damaged object is not repaired |
| BaseStore.CaptureReads | internal/state/base.go:99-146 | after a capture, kept paths read as before, captured ones as the repository's file, and all others are absent |
| BaseStore.DeleteReads | internal/state/base.go:77-93 | after a deletion the path is absent and every other reads as before |
| BaseStore.ValidPathExactly | internal/state/base.go:230-251 | the valid paths are made of proper segments without a backslash, have something to see and do not start at a drive |
| DocumentLeaves.Flatten | internal/portableconfig/policy.go:106-129 | lists every leaf of a document exactly once, in any order |
| DocumentLeaves.LeavesUnrelated | internal/portableconfig/policy.go:114-129 | no leaf lies on another leaf's path |
| DocumentLeaves.LeavesDetermine | internal/portableconfig/policy.go:106-129 | a document is determined by its leaves |
| DocumentLeaves.SetAtLeaf | internal/portableconfig/policy.go:140-151 | setting a leaf clears its path above and below and touches no other leaf |
| DocumentLeaves.DeleteAtLeaf | internal/portableconfig/policy.go:153-166 | deleting removes what is at and under the path, prunes emptied objects, and touches no other leaf |
| PathResolver.NormalExactly | internal/pathresolver/pathresolver.go:102-129 | the paths that can be tokenized are a root followed by segments of which none is empty, "." or ".." |
| PathResolver.TokenizesExactly | internal/pathresolver/pathresolver.go:54-78 | exactly the normal paths at or under a normal home directory are tokenized, to the token and what follows the home directory |
| PathResolver.ExpandsExactly | internal/pathresolver/pathresolver.go:80-100 | exactly the tokens that do not give a normal path fail; others give the home directory and what follows, in the native spelling |
| PathResolver.TokenizedExpands | internal/pathresolver/pathresolver.go:54-100 | expanding the token of a path gives the path with the home directory in this computer's spelling |
| PathResolver.ExpandedTokenizes | internal/pathresolver/pathresolver.go:54-100 | tokenizing an expanded token gives the token, with slashes |
| PathResolver.RoundTripExactly | internal/pathresolver/pathresolver.go:54-100 | a tokenized path comes back unchanged if and only if it was spelled natively |
| PathResolver.TokensAreNotPaths | internal/pathresolver/pathresolver.go:54-128 | only absolute paths are tokenized, and a token never looks absolute |
| PathResolver.LooksAbsoluteExactly | internal/portableconfig/policy.go:242-249 | the values that look absolute, on Windows and on POSIX computers |
| PathResolver.ComparesExactly | internal/pathresolver/pathresolver.go:63-78 | paths are compared as they are, on Windows without regard to the case of ASCII letters |
| PortableConfig.TokenizePathValue | internal/portableconfig/policy.go:191-214 | the loop over a list gives up at its first unusable item |
| PortableConfig.ExpandPathValue | internal/portableconfig/policy.go:216-240 | the loop over a list stops at its first error or unusable item |
| PortableConfig.ProjectDocument | internal/portableconfig/policy.go:25-44 | the projected document has, at every path, exactly the shared form of the leaf there |
| PortableConfig.WithdrawFields | internal/portableconfig/policy.go:54-63 | exactly the shared leaves that the remote withdrew are removed |
| PortableConfig.RestoreDocument | internal/portableconfig/policy.go:46-86 | fails if and only if some shared leaf cannot be expanded; otherwise every leaf is the remote's local form, removed, or the local one, whatever the order of the fields |
| PortableConfig.ProjectionUnique | internal/portableconfig/policy.go:25-44 | so projection has one result |
| PortableConfig.RestorationUnique | internal/portableconfig/policy.go:46-86 | and so has restoration |
| PortableLens.PutGetExactly | internal/portableconfig/policy.go:25-86 | whatever the local document and the base: sharing the restored document gives what was received, if and only if every received leaf is a shared form with canonical tokens, every empty object was here and is not taken out, and every leaf shared here and not received is overwritten or withdrawn |
| PortableLens.UnmovedPutGetExactly | internal/portableconfig/policy.go:25-86 | if the local document still shares the base, only the received leaves matter, and an empty object only has to be here |
| PortableLens.GetPutExactly | internal/portableconfig/policy.go:25-86 | restoring a document from what it shares succeeds and gives it back, if and only if its shared paths are spelled natively and hold no literal token |
| PortableLens.UnsharedLeafSurvivesExactly | internal/portableconfig/policy.go:46-86 | for every local document and base: a value that is not shared survives, if and only if no written value lies above or below it and no withdrawn value of the base lies above it (or, for an empty object, just below) |
| PortableLens.UnmovedLeafSurvivesExactly | internal/portableconfig/policy.go:46-86 | if the local document still shares the base, only written values can cost it |
| PortableLens.UnsharedLeafCanBeLost | internal/portableconfig/policy.go:140-151 | a concrete document that loses one |
| PortableLens.LeafIsSharedExactly | internal/portableconfig/policy.go:25-44 | a leaf is shared, if and only if its path is portable, not sensitive and not of this machine alone, and no text in a path field is, at any depth of lists, an absolute path outside the home directory; it is shared as it is, or with tokens |
| PortableLens.LeafIsReceivedExactly | internal/portableconfig/policy.go:64-84 | a received leaf is written, if and only if its path may be shared, it is no empty object and no text in a path field is a broken token or an absolute path; it is written as it is, or with its tokens expanded |
| PortableLens.ValueIsSharedExactly | internal/portableconfig/policy.go:191-214 | the same for values: which have a shared form, and that it is theirs with tokens |
| PortableLens.ValueIsReceivedExactly | internal/portableconfig/policy.go:216-240 | and which have a local form, or fail |
| PortableLens.SharesOnlyPortable | internal/portableconfig/policy.go:25-44 | a projected document holds portable leaves only, none sensitive or of this machine alone, and no absolute path in a path field |
| PortableReceipt.FirstPutGetExactly | internal/portableconfig/policy.go:46-86 | without a base: the received document is shared again, if and only if its leaves are acceptable and each leaf shared here and not received is in the way of a written one |
| PortableReceipt.MergedPutGetExactly | internal/syncengine/resource_apply.go:94-137 | after a merge: the merged document is shared, if and only if each of its leaves is a shared form with canonical tokens, and each of its empty objects is here and not taken out |
| PortableReceipt.DroppedLeaf | internal/portablemerge/merge.go:200-222 | a local leaf that a merge drops was the base's, or an empty object that the merge fills |
| PortableReceipt.FirstReceiptKeepsLocalLeaves | internal/portableconfig/policy.go:46-86 | two concrete documents: the first receipt keeps a local leaf although every received one is acceptable |
| PortableReceipt.MergeCanLoseUnsharedLeaf | internal/portableconfig/policy.go:57-63 | concrete documents: a merge loses a value that is not shared, although nothing is written near it |
| PortableReceipt.MergeCanLoseEmptyObject | internal/portableconfig/policy.go:57-63 | concrete documents: a merge shares an empty object that the restored document does not have |
| PortableSync.UseCloudConfigExactly | internal/syncengine/planning.go:78-94 | for a configuration document: taking the cloud's makes both sides the cloud's, if and only if they were, or the base does not record the cloud's and every path returns it |
| PortableSync.FirstUseCloudExactly | internal/syncengine/resource_apply.go:94-137 | without a base, in terms of leaves |
| PortableSync.UseCloudCanKeepLocalLeaves | internal/syncengine/resource_apply.go:94-137 | concrete documents: the sides differ after "use cloud", and the next pass pushes the local leaf to the cloud |
| PortableSync.MergeConfigExactly | internal/syncengine/engine.go:706-783 | after a merge of a configuration document both sides share the same, if and only if the merged one can be restored and each of its leaves returns |
| PortableSync.ConfigRestoreSettles | internal/syncengine/resource_apply.go:94-137 | a document that was received as it was can be received again |
| PortableLens.ValuePutGet | internal/portableconfig/policy.go:191-240 | the same two laws on single values, lists included |
| PortableLens.ValueGetPut | internal/portableconfig/policy.go:191-240 | and back |
| PortableLens.SharedValueIsShared | internal/portableconfig/policy.go:191-214 | what is shared has no other shared form |
| ConflictStore.Store.QueueBatch | internal/conflict/resolution.go:122-192 | a batch is accepted if and only if none is pending and every conflict is selected once, at its current revision and with fitting content; a refused batch changes nothing |
| ConflictStore.CompleteExactly | internal/conflict/resolution.go:134-171 | a selection is complete, if and only if it is about every conflict once, at its current revision, with a content that the scanner passes where it is merged and none elsewhere |
| ConflictStore.CompleteBatchResolvesEverything | internal/conflict/resolution.go:134-171 | an accepted batch commits and covers every conflict |
| ConflictStore.Store.ApplyPendingBatch | internal/conflict/resolution.go:321-420 | performs exactly the sequence of writes and removals that the crash analysis cuts short |
| ConflictStore.Store.RecoverTransactions | internal/conflict/resolution.go:423-461 | performs exactly the recovery program |
| ConflictStore.Store.RollbackEntries | internal/conflict/resolution.go:463-479 | undoes the entries from last to first |
| ConflictMirror.Store.Create | internal/conflict/store.go:36-89 | a bundle is created on both sides, or on neither if it is invalid or its id is taken on one |
| ConflictMirror.Store.MirrorFromRepo | internal/conflict/store.go:125-200 | succeeds if and only if each of the clone's bundles can be read and is not another one here; then this computer has exactly the clone's bundles beside the preserved ones; a failure only adds |
| ConflictMirror.MirrorsAgain | internal/conflict/store.go:125-200 | a mirrored clone can be mirrored again and nothing changes |
| ConflictMirror.DisagreementStays | internal/conflict/store.go:152-168 | one bundle that differs under the same id makes every call fail, for as long as the repository keeps its own |
| ConflictMirror.RetryCanMirrorExactly | internal/syncengine/resources.go:459-467 | two bundles of the same versions have the same id; the retry of the one whose push was rejected can mirror, if and only if they were created at the same moment for the same resource |
| ConflictMirror.RetryForgetsOwnBundle | internal/conflict/store.go:178-199 | a retry takes a bundle about other versions away again |
| ConflictJournal.RolledBackAt | internal/conflict/resolution.go:463-479 | with several entries for one path the earliest wins, and other paths stay |
| ConflictJournal.RollbackIsHarmlessExactly | internal/conflict/resolution.go:463-479 | a rollback changes nothing, if and only if every journalled path holds what its earliest entry says |
| ConflictJournal.CrashesDoNotMatter | internal/conflict/resolution.go:423-461 | however often and wherever recovery crashes, the recovery that completes gives the same files |
| ConflictResolution.CutWrites | internal/conflict/resolution.go:358-400 | wherever the writes are cut short, rolling back gives the original files, also with two selections of one path |
| ConflictResolution.CrashAtomicExactly | internal/conflict/resolution.go:321-461 | a crash at any point and a recovery leave all files original or all resolved, as pending.json says, if and only if a leftover journal is harmless |
| ConflictResolution.AtomicUnderRepeatedCrashes | internal/conflict/resolution.go:321-461 | the same with any number of crashes during recovery |
| ConflictResolution.CommitLeavesJournal | internal/conflict/resolution.go:409-418 | a committed batch that crashes before clearing its journal leaves one that undoes it |
| ConflictResolution.CommittedBatchCanBeTakenBack | internal/conflict/resolution.go:428-450 | a later batch that crashes right after it is marked takes the earlier one back; the leftover journal is harmless only if that one had changed nothing |
| ConflictResolution.ResolutionIsTakenBack | internal/conflict/resolution.go:409-450 | two concrete disks: a committed resolution of one file disappears when the batch for another file crashes |
| ConflictResolution.ConflictsKeptExactly | internal/conflict/resolution.go:401-408 | an interrupted batch keeps its conflicts if and only if it had not begun to remove them |
| ConflictOutcome.CommittedBatchResolves | internal/conflict/resolution.go:358-420 | a batch that commits leaves in every file what its last selection about it chose, the bundle's version of this computer, of the repository, or the merged content; other files stay; exactly the selected bundles are gone |
| ConflictOutcome.CommitsExactly | internal/conflict/resolution.go:358-383 | a batch commits, if and only if each selected conflict is there at its revision and the scanner passes the chosen content |
| ConflictOutcome.FailedBatchChangesNothing | internal/conflict/resolution.go:342-357 | otherwise all files and bundles are as before and the batch is kept as the failed one |
| ConflictOutcome.RecoveryReports | internal/conflict/resolution.go:423-461 | recovery gives each journalled file its earliest original, keeps the batch as the failed one and leaves any other disk alone |
| SharedLibrary.RecoverableExactly | internal/sharedlibrary/manager.go:178-195 | a pending target is recoverable if and only if every file is as before or as after the interrupted operation |
| SharedLibrary.PassingKeepsInv | internal/sharedlibrary/manager.go:202-257 | every state that an operation passes through leaves every owned target recoverable |
| SharedLibrary.PassingKeepsOriginals | internal/sharedlibrary/manager.go:236-244 | the original tree never changes while its record lives |
| SharedLibrary.OriginalIsFirstAdoption | internal/sharedlibrary/manager.go:236-241 | it is the tree of the first adoption |
| SharedLibrary.RestoreAlwaysWorks | internal/sharedlibrary/manager.go:116-123 | over every run of operations crashed anywhere, an owned target can be restored, and a completed restore leaves exactly the tree from before its first apply |
| SharedLibrary.EditedTargetIsRefused | internal/sharedlibrary/manager.go:112-122 | a restore is prepared, if and only if every file is as the manager left it or meant to leave it; otherwise the target is not overwritten either |
| SharedLibrary.AcceptedExactly | internal/sharedlibrary/manager.go:90-150 | each kind of request is accepted, if and only if its place, the tree to be taken, the private copy and the record are as stated |
| SharedLibrary.CompletedDoes | internal/sharedlibrary/manager.go:202-257 | a completed apply, owned or not, gives the target the library's tree, an import gives the library the target's, a restore gives back the first tree, and nothing else changes |
| SharedLibrary.Manager.WriteNew | internal/sharedlibrary/files.go:209-216 | the writing loop, every state of which is a mix of the two trees |
| SharedLibrary.Manager.RemoveOld | internal/sharedlibrary/files.go:217-228 | the removing loop, which ends with exactly the new tree |
| SharedLibrary.Manager.Run | internal/sharedlibrary/manager.go:202-257 | does exactly what the preview showed or nothing, and passes only through allowed states |
| SharedLibrary.Manager.Refresh | internal/sharedlibrary/manager.go:261-282 | re-applies every owned target that can be, reports the others, and changes nothing else |
| Scheduler.Fields.PauseIfIdle | internal/scheduler/scheduler.go:167-175 | pauses exactly when no job is running |
| Scheduler.Fields.BeginRun | internal/scheduler/scheduler.go:334-348 | lets one run through |
| Scheduler.Fields.RearmAfterCycle | internal/scheduler/scheduler.go:394-406 | schedules the next run exactly when the scheduler still runs |
| SchedulerRuns.ScheduleIsConsistent | internal/scheduler/scheduler.go:232-406 | under every interleaving, nextRun is set exactly while running, not paused and not cancelled, and at most one job runs |
| SchedulerRuns.NoWakeupIsLost | internal/scheduler/scheduler.go:261-406 | a waiting loop with a next run has a notification on its way, or a timer that fires no earlier than that run |
| SchedulerRuns.WakeupStartsJob | internal/scheduler/scheduler.go:298-325 | and that timer's event starts the job |
| SchedulerRuns.PauseHolds | internal/scheduler/scheduler.go:167-179 | after PauseIfIdle reports true nothing runs or starts before a resume |
| SchedulerRuns.TriggerStays | internal/scheduler/scheduler.go:142-153 | a requested run stays requested until the loop takes it or the run is cancelled |
| SchedulerRuns.TriggerStartsJob | internal/scheduler/scheduler.go:307-325 | and taking it starts the job |
| SchedulerRuns.RunnerKeepsCover | internal/scheduler/scheduler.go:371-406 | every critical section of the loop keeps the next run covered |
| SchedulerRuns.CancellationHolds | internal/scheduler/scheduler.go:350-361 | after a cancellation, until the run ends, no next run is set, no request is accepted and no job starts, whatever callers do, except one whose wakeup the loop had taken before |
| SchedulerRuns.ChangeReachesTimer | internal/scheduler/scheduler.go:115-188 | a new interval, ten minutes in place of one that is not positive, or a resume sets the next run and a waiting loop's timer to exactly that long after the change, or the timer to now when that moment has passed |
| SchedulerRuns.PauseReachesTimer | internal/scheduler/scheduler.go:155-179 | a pause clears the next run and disarms the timer of a waiting loop |
| SchedulerRuns.IntervalIsObeyed | internal/scheduler/scheduler.go:334-406 | until the interval is set again, every cycle and every new run schedules the next one exactly that long ahead and arms the timer for it |
| SchedulerRuns.CycleComesRound | internal/scheduler/scheduler.go:232-325 | a cycle runs its job once and waits again, with the next run and the timer one interval after the job |
| SchedulerRuns.EarlyEventIsTaken | internal/scheduler/scheduler.go:298-303 | a timer event from before the next run starts nothing and is used up |
| SchedulerRuns.ContextEndsRun | internal/scheduler/scheduler.go:281-303 | once its context has ended a waiting loop starts no job, leaves and lets the scheduler run again |
| TrayFeedback.RevisionDeterminesUpdate | internal/tray/feedback.go:222-278 | an operation that leaves the revision alone leaves the whole update alone, and any other raises it by one and delivers |
| TrayFeedback.RunEndsWith | internal/tray/feedback.go:136-159 | which tip and icon a failed, an attention-needing and a clean run end with, and when the tip pops up |
| TrayFeedback.RunShows | internal/tray/feedback.go:58-134 | the tip and icon of a run's beginning and of each of its stages |
| TrayFeedback.PauseShows | internal/tray/feedback.go:70-80 | a pause changes the tip only between runs and over no error or warning |
| TrayFeedback.ResumeShows | internal/tray/feedback.go:70-80 | and so does a resume |
| TrayFeedback.ReadyShows | internal/tray/feedback.go:173-185 | a tip that waited for the tray pops up when it is ready |
| FeedbackRuns.RenderedIsCurrent | internal/tray/feedback.go:280-293 | under every interleaving of operations, timers and deliveries, rendered revisions strictly increase, and at rest the last one rendered is the current state |
| FeedbackRuns.SomethingIsRendered | internal/tray/feedback.go:280-293 | at rest after any change the current state has been rendered |
| FeedbackRuns.SameRevisionSameUpdate | internal/tray/feedback.go:262-278 | at any two moments of any run the same revision means the same update |
| FeedbackRuns.StaleTimerIsDead | internal/tray/feedback.go:232-253 | a hide timer whose revision has passed never acts again |
| Preview.SummaryStore.Commit | internal/desktop/resources.go:65-72 | refuses a preview from before the last invalidation |
| PreviewRuns.OneLiveCollection | internal/desktop/preview_coordinator.go:33-88 | at most one collection is live, it counts exactly its waiting callers, and an unfinished one is cancelled exactly when none are left |
| PreviewRuns.WaitersAreServed | internal/desktop/preview_coordinator.go:33-88 | a collection is never cancelled under a waiting caller: it has completed, or it is live and the one that others join |
| PreviewRuns.SavesExactly | internal/cli/sync.go:107-111 | what a save of the user and the end of a synchronization save |
| PreviewRuns.StoredPreviewIsCurrent | internal/desktop/resources.go:32-79 | with no save under way, a stored preview was made from the saved settings, if no first synchronization has replaced them since they were loaded |
| PreviewRuns.HarmlessRunIsCurrent | internal/cli/sync.go:107-111 | it always was, in a run in which no first synchronization writes back other settings than the saved ones |
| PreviewRuns.SyncKeepsCurrentExactly | internal/cli/sync.go:107-111 | the end of a synchronization leaves a current stored preview current, if and only if it does not |
| PreviewRuns.StoredPreviewCanBeStale | internal/cli/sync.go:107-111 | a concrete run: settings saved during a first synchronization are replaced by the old ones, and their preview stays |
| Collector.Result.WalkDirectory | internal/resourcecollect/collector.go:260-324 | the traversal ends on every finite file system, and reports exactly the specified events |
| Collector.Result.WalkLink | internal/resourcecollect/collector.go:348-405 | a link is followed, also into a directory that cannot be read, refused or reported as a cycle |
| Collector.LinkDecreases | internal/resourcecollect/collector.go:392-404 | a followed link leaves fewer directories unvisited, or ends in one that cannot be read |
| Collector.CollectsOnlyPermitted | internal/resourcecollect/collector.go:371-380 | every collected file lies under the resource root or an approved link target |
| Collector.CollectsExactly | internal/resourcecollect/collector.go:260-405 | a file is collected under a name if and only if following that name leads to it, through directories and permitted links that close no cycle |
| Collector.ReportsExactly | internal/resourcecollect/collector.go:260-470 | every event, collected or skipped, is reported if and only if its name leads to an entry or an unreadable directory that it is about, with the reason |
| Collector.WalkFinds | internal/resourcecollect/collector.go:277-322 | whatever can be followed is collected |
| Collector.FoundIsLed | internal/resourcecollect/collector.go:277-405 | whatever is collected can be followed |
| RepoNamespace.ParseBuiltPath | internal/resource/namespace.go:20-118 | parsing a built path gives back the relative path, category, layout and identity |
| RepoNamespace.PathFindsSpecExactly | internal/syncengine/resources.go:295-307 | a path finds the spec it was built from, if and only if that is not a legacy resource shared under another name |
| RepoNamespace.DistinctSpecsDistinctPaths | internal/resource/namespace.go:20-58 | two such specs never share a path |
| RepoNamespace.MisfiledSpecsCollide | internal/resource/namespace.go:29-39 | the others do, and their paths find neither |
| RepoNamespace.ResourcePathsAreNotMetadata | internal/syncengine/resources.go:309-331 | no resource path is one of the engine's own metadata paths |
| RepoLayout.LayoutIs | internal/resource/namespace.go:20-58 | the path of every resource, segment by segment |
| RepoLayout.BuildsExactly | internal/resource/namespace.go:20-58 | which resources and relative paths have a path |
| RepoLayout.ParsesExactly | internal/resource/namespace.go:60-118 | exactly these paths can be read |
| RepoLayout.ParsedRebuildsExactly | internal/resource/namespace.go:20-118 | a path that was read is built again from what was read, if and only if its provider, resource and relative path can be built from, and it is not below the provider common |
| RepoLayout.ValidRelativeExactly | internal/resource/namespace.go:152-189 | the valid relative paths by their segments |
| RepoLayout.MetadataPathsExactly | internal/syncengine/resources.go:309-331 | the engine's own files are the install plans and the four files of each conflict bundle, and no others |
| RepoLayout.PrefixExactly | internal/syncengine/resources.go:439-442 | a path is under a prefix, if and only if its segments begin with those of the prefix |
| InstallExecutor.Store.Execute | internal/installplan/executor.go:58-129 | refuses an untrusted plan; otherwise executed and pending operations are exactly those whose fate says so, in plan order, and the pending plan is what is left |
| InstallExecutor.Store.RunAll | internal/installplan/executor.go:71-111 | nothing runs unapproved and no identity succeeds twice, over every sequence of calls |
| InstallExecutor.PlanIsSplit | internal/installplan/executor.go:71-111 | every operation of a plan is already applied, executed or pending, and only once |
| InstallExecutor.ApprovalKeyIdentifies | internal/installplan/store.go:157-160 | an approval covers one source of one adapter |
| InstallExecutor.AppliedKeyIdentifies | internal/installplan/model.go:125-136 | two commands share their applied identity, if and only if they are the same in every field and argument |
| InstallExecutor.FatesAre | internal/installplan/executor.go:71-111 | an operation runs, if and only if it is approved and its identity has not succeeded before, in this plan or ever |
| InstallExecutor.ShellSyntaxExactly | internal/installplan/model.go:138-144 | which sources cannot be approved |

## Left out

- Edits between the collection and the apply loop of one attempt: an attempt reads the local files once, and users edit between attempts.
- SyncEngine.Replica.PullRebase: the half-rebased working tree that a failed rebase leaves is not represented, because nothing in the source reads it: the clone only counts as stopped. The `git rebase --abort` that a user might run is not a step.
- SyncEngine.Replica.SyncOnce: the call's own pushes are accepted or beaten by a competing commit. A push that breaks for another reason, or a process that dies between its commit and its push, is a step of `SyncRuns`, where it leaves the commit in the clone; a process that dies earlier in its pass, with changes in the working tree, is not.
- A call that ends because it cannot mirror the clone's conflict bundles: `SyncPass` takes this computer's bundles to be the clone's after every pull, and `ConflictMirror` says exactly when that mirroring works.
- Install manifests and blocked paths in the safety and convergence theorems: a manifest's base advances without its local file being pulled, and a blocked file is removed from the repository by design. First-run directions have their own theorems.
- The queued conflict batch inside a cycle (`preflightResolutionBatch`, `restoreResolution`): held paths are a parameter of a pass; the batch itself is modelled in the conflict modules. The adoption of a resolved conflict's version as the base of the plan (`planBase`), and what it does to state.json against the merge bases, are not modelled.
- Errors that abort a whole pass (disk errors, an unreadable merge base, malformed paths): only failed local writes and removals, failed merges and failed pulls are modelled.
- SyncSafety.RejectedPushIsHarmless: assumes that the text merge absorbs its own results, because `git merge-file` is not part of this model; the structured merge is proved to. It also assumes that a document received as it was can be received again, which `PortableSync.ConfigRestoreSettles` proves for configuration documents.
- SyncSafety.MergeContentsAbsorb: the same assumption on the text merge.
- SyncSafety.FailedWriteIsCompleted: the same assumption on the text merge.
- What a structured file shares after receiving a document is a parameter of a pass; `PortableSync` fixes it for configuration documents as the projection of the restored document.
- Parsing and printing of JSON, YAML and TOML, glob patterns, the text merge, `git rebase` and the secret scanner: parameters of the model.
- BaseStore: input and output errors, and an index file that does not parse; an index with an invalid path or digest is modelled. Contents are taken to have different digests only where they actually occur. `SyncEngine` works on the map that the store represents.
- DocumentLeaves.SetAtLeaf: `setAt` walks down with a cursor over nested maps that it updates in place; the model rebuilds the nested maps by recursion, so sharing between documents (which the source excludes by copying) is not captured.
- Path comparison on Windows lowers ASCII letters only.
- Several alias targets of one resource, modification times and file sizes.
- ConflictStore: removing a bundle is one step, bundles are removed by id, and input and output errors inside a batch are treated as crashes.
- SharedLibrary: limits on size and number of files, links and secret-looking content in trees, and the roll-back of an import whose write fails. A refresh is a sequence of applies, so its crashes are those of applies.
- Scheduler: the displayed state, which is set in a critical section of its own, and its observers. Timers drop a pending event when they are stopped or reset, as Go's do since 1.23.
- TrayFeedback: titles and wording, and errors of the renderer.
- Preview: what a preview contains, and failures to write it; that of the configuration only the settings, and not the mark of a completed first synchronization, enter a preview.
- Collector: inventories, the root validation hook and cancellation; all ways in which a file is passed over with an issue are one verdict.
- InstallExecutor: the per-adapter command checks are a parameter, and writing the store does not fail.
- User interface, OAuth, keyring, updater, trash retention and configuration files.
