# CD211, verified

CD211 stands in for a qBittorrent client: it submits torrents to a cloud drive, waits for the offline download, copies
the result to local disk, verifies it, and tells other programs about it. This project models the parts of it whose
correctness spans many steps, many workers or a crash, and proves what they promise.

- **The two-phase file plan** (`FilePlan`, `FilePlanTheorems`, `FilePlanCycle`, `FilePlanSwap`). A set of renames,
  chains and cycles included, is applied by staging every file under a private name and then publishing it. The disk is
  a mutable map whose operations may fail at any point, and the loops over Go maps pick any order.
- **The stored file list** (`FileTable`, `FolderRename`, `LocalVerify`, `DiskVerify`). Overrides, priorities and folder
  renames keep paths free of conflicts, a folder rename keeps disk and table in agreement, and repeated verification
  finds each selected file where the plan put it, for exactly the tables described below.
- **The leased workflow** (`Domain`, `Workflow`, `RowInvariant`, `Lifecycle`, `Deadlines`, `CopyOrder`, `Cooperation`,
  `Scheduler`, `Claims`, `Steps`, `StatusText`). `Workflow` gives one decision as a function of the row and of all
  answers of cloud and disk; `Scheduler` is the worker that computes it in place and is proved to agree with it; the
  other modules prove what holds of every row, every life of a row and every interleaving of workers.
- **Events** (`EventFeed`, `Signal`, `Webhook`). Cursor paging over a growing log, the latch that wakes long polls, and
  the retry schedule of webhooks.
- **The rest** (`TorrentMeta`, `Manifest`, `LoginLimiter`, `Paths`).

Every lemma switches automatic induction off: where a proof is by induction, the induction is written out.

## What the code does not guarantee

Some promises hold only under a condition.

- Running a file plan again undoes it when targets are sources of other moved files. The documentation of
  `ApplyFilePlan` promises convergence without a condition. With files that differ, a second run of a finished plan
  leaves the disk as it is if and only if no target is the source of a moved file (`FilePlanTheorems.SecondRunExact`); a
  finished swap is swapped back (`FilePlanSwaps.SwapSwapsBack`).
- Verification applies the plan while it waits for the copy (reconcile.go, lines 436 to 441), again when it verifies
  (line 479), and at every poll and every later verification, so no crash is needed for such a second run. From a
  complete copy of files that differ, verification can apply its plan, finds the selected files, can apply it again and
  finds them again if and only if every file passes the planner's checks and no moved file's stored path is the place in
  the torrent of another moved file or of an excluded file (`DiskVerify.RepeatedVerificationExact`). The same condition
  decides whether re-verifying a disk that already follows the table changes nothing (`DiskVerify.ReverificationExact`).
  The table edits do not look at it: rename a file away, let another take its path, exclude the first. The copy of that
  torrent is refused at every verification (`DiskVerify.ReplacingNeverStarts`), and where the second file already is at
  its stored path, verification removes it (`DiskVerify.ReplacingLosesContent`).
- After a crash, too, the next run is right if and only if no published file's source path has been filled again by
  another published file (`FilePlanTheorems.ResumeExact`), which is so at every crash if and only if no target is a
  source (`FilePlanTheorems.ChainlessIsNoRefill`). A cycle of three equally sized files stopped after two publications
  passes the preflight and loses a file (`FilePlanCycles.CycleLosesContent`).
- While staging, a failed look at a private name counts as its absence (plan.go, line 140). With files that differ, on
  an interrupted disk that a run can resume, this keeps every file if and only if the source is not occupied together
  with its private name (`FilePlanTheorems.FailedLookExact`); in a half-published swap it loses one
  (`FilePlanSwaps.FailedLookLosesContent`). The guarantees for runs with failed looks ask that no source is occupied in
  this way.
- A plan whose sources, private names and targets are all missing passes the preflight (plan.go, lines 99 to 114) and
  then fails at its first rename (`FilePlanSwaps.AcceptedButNowhere`). `ApplyFilePlan` therefore succeeds only for plans
  that are accepted and complete; `FilePlanTheorems.AcceptedMayBeIncomplete` says exactly which accepted plans are not.
- `SetFileOverride` can deselect the last selected file (`FileTables.OverrideCanDeselectAll`); it keeps one selected
  exactly when its file is not in the list, the priority is not 0 or another file is selected
  (`FileTables.FileTable.SetFileOverride`). It accepts overrides for files outside the list, which `SetFilePriorities`
  then counts as selected files (`FileTables.PhantomSelection`).
- The file rename handler and `SetFileOverride` accept names with control characters above 0x7f, with which the manifest
  check of verification never passes (`LocalVerify.StoredButNeverVerified`); it passes exactly when every selected path
  does (`LocalVerify.ExpectationExact`).
- The parser accepts a list in which one file's path leads through another file (`TorrentMeta.NestedIsAccepted`). The
  table of an accepted list is free of conflicts exactly when there is no such pair (`TorrentMeta.AcceptedTableExact`).
- A folder rename changes the disk first. Once the disk step has succeeded, the table refuses if and only if one of the
  two names is not plain or the rewritten paths, those of excluded files included, conflict; with files that differ,
  disk and table disagree exactly when files were moved and the table refuses (`FolderRenames.RenameFolder`,
  `FolderRenames.TableCanRefuseAfterDisk`).
- The handlers compute the target of a retry from a row that they read before. The retry leaves a row that can run if
  and only if the paths that the target needs are recorded (`Lifecycle.RetryWithExact`). A row read since the last
  submission is always good enough (`Lifecycle.LifeIsSound`); one read before the download was deleted and submitted
  again is not (`Lifecycle.StaleRetryBreaks`).
- The claim query does not leave out STOPPED rows. That no stopped row is ever claimed follows from the invariant that
  they are not scheduled (`Lifecycle.LifeIsSound`).

## Model

| member | source | states |
|---|---|---|
| `Paths.DecimalInjective` | internal/fsafe/plan.go:74 | Private names that end in different indexes are different names |
| `Paths.SplitConcat` | internal/store/repository.go:1392-1395 | The components of a path under a folder are the folder's followed by its own |
| `Paths.GoodComponentsMakeValidPath` | internal/fsafe/fsafe.go:953-958 | Components that are good one by one make a path that passes the whole-path check, and splitting it gives them back |
| `Paths.ValidPathExact` | internal/fsafe/fsafe.go:953-958 | A path passes the whole-path check exactly when it is not empty and every component is good |
| `FilePlans.Disk.Rename` | internal/fsafe/plan.go:143 | A rename either moves exactly one file, replacing what was at its target, or changes nothing |
| `FilePlans.Collect` | internal/fsafe/plan.go:52-76 | The first loop fills the bookkeeping maps of the whole plan list exactly when every plan passes its checks |
| `FilePlans.PreflightOne` | internal/fsafe/plan.go:77-135 | One source passes the preflight exactly when its checks hold of the disk, and is marked completed exactly when its file is already final |
| `FilePlans.Preflight` | internal/fsafe/plan.go:77-135 | In any order, the preflight passes exactly when every source does, and finds exactly the completed ones |
| `FilePlans.Stage` | internal/fsafe/plan.go:136-146 | In any order and with failures anywhere, exactly the staged files have moved from source to private name and nothing else changed; a failed look breaks this only if a source is occupied together with its private name |
| `FilePlans.Publish` | internal/fsafe/plan.go:147-182 | In any order and with failures anywhere, exactly the published files have moved from private name to target and nothing else changed |
| `FilePlans.Exclude` | internal/fsafe/plan.go:183-204 | Exactly the excluded paths passed so far are gone; all are when the loop ends, and it ends exactly if each held a file of the planned size or nothing |
| `FilePlans.Prepare` | internal/fsafe/plan.go:40-135 | Collecting and preflight pass exactly when plan list and disk pass every check, and without touching the disk |
| `FilePlans.ApplyFilePlan` | internal/fsafe/plan.go:40-206 | A plan refused or not fully looked at leaves the disk untouched; otherwise the disk is always the old one with some files staged, or all staged and some published, or all published and some exclusions removed, unless a look failed after the checks while a source was occupied together with its private name; without outside failures an accepted and complete plan goes all the way, and only such a plan does |
| `FilePlanTheorems.MovedIsUnique` | internal/fsafe/plan.go:22-24 | The description of the final disk leaves one disk only |
| `FilePlanTheorems.AnyOrderRename` | internal/fsafe/plan.go:52-204 | From a fresh disk every order of the map loops, chains, swaps and cycles included, ends with each target holding its source's file, no private name left, exclusions gone and all else unchanged |
| `FilePlanTheorems.LayoutRead` | internal/fsafe/plan.go:99-106 | On an interrupted disk whose published sources are not refilled, the preflight counts as completed exactly the published files and stages exactly those still at their source |
| `FilePlanTheorems.LayoutStep` | internal/fsafe/plan.go:136-204 | A run started on an interrupted disk leaves an interrupted disk of the same original, with more staged, published and removed |
| `FilePlanTheorems.InterruptedIsAccepted` | internal/fsafe/plan.go:77-135 | An interrupted disk whose published sources are not refilled passes the preflight, and no later check can stop the run |
| `FilePlanTheorems.NoRefillEarly` | internal/fsafe/plan.go:84-91 | Nothing is refilled during staging or in a half-published swap |
| `FilePlanTheorems.NoRefillWithoutChains` | internal/fsafe/plan.go:84-91 | Nothing is ever refilled when no target is a source |
| `FilePlanTheorems.CrashesAccepted` | internal/fsafe/plan.go:22-24 | After any number of interrupted runs the next one is accepted |
| `FilePlanTheorems.CrashesConverge` | internal/fsafe/plan.go:22-24 | After any number of interrupted runs, from the first one on that goes all the way the disk equals that of a single uninterrupted run, and later runs leave it so |
| `FilePlanTheorems.AcceptedMayBeIncomplete` | internal/fsafe/plan.go:77-135 | An accepted plan lacks what a run needs exactly when a file is nowhere, or a republished file's target is held by a bystander |
| `FilePlanTheorems.RefillMisplaces` | internal/fsafe/plan.go:147-182 | A finished run that started while a published source was refilled puts the other file at that source's target |
| `FilePlanTheorems.ResumeExact` | internal/fsafe/plan.go:22-24 | With files that differ, a second run that goes all the way is right if and only if it did not start while a published source was refilled |
| `FilePlanTheorems.ChainlessIsNoRefill` | internal/fsafe/plan.go:22-24 | No interruption whatever, the end included, leaves a published source refilled if and only if no target is the source of a moved file |
| `FilePlanTheorems.SecondRunExact` | internal/fsafe/plan.go:22-24 | With files that differ, running a finished plan again, all the way, leaves the disk as it is if and only if no target is the source of a moved file |
| `FilePlanTheorems.ChainlessRuns` | internal/fsafe/plan.go:22-24 | Without chained targets, runs of one plan, wherever each stops, never disturb each other |
| `FilePlanTheorems.ApplicationExists` | internal/fsafe/plan.go:136-204 | From every disk on which no pending file is missing, a run that goes all the way exists |
| `FilePlanSwaps.SwapSwapsBack` | internal/fsafe/plan.go:40-206 | A finished swap is accepted again, goes all the way and ends on the disk it started from |
| `FilePlanTheorems.FileAtItsPlace` | internal/fsafe/plan.go:136-182 | At every interrupted point each moved file is at its source, private name or target, whole, and no two files share a place |
| `FilePlanTheorems.ExactlyOnePlace` | internal/fsafe/plan.go:136-182 | With files that differ, each moved file is at exactly one of its source, its private name and its target |
| `FilePlanTheorems.TakenMeansPublishedOnto` | internal/fsafe/plan.go:84-91 | On an interrupted disk a source is occupied together with its private name exactly when its file is staged and another was published onto the source |
| `FilePlanTheorems.FailedLookExact` | internal/fsafe/plan.go:136-146 | With files that differ, treating a failed look at a private name as absence keeps every file if and only if the source is not occupied together with that name |
| `FilePlanSwaps.FailedLookLosesContent` | internal/fsafe/plan.go:136-146 | A half-published swap is accepted, and a failed look at the second private name then loses the second file |
| `FilePlanSwaps.AcceptedButNowhere` | internal/fsafe/plan.go:99-114 | A plan of one move none of whose paths exists is accepted, is not complete, and no run of it finishes |
| `FilePlanTheorems.ApplyFresh` | internal/fsafe/plan.go:40-206 | A first run loses no file whatever fails, and moves all of them if nothing does |
| `FilePlanTheorems.ApplyAgain` | internal/fsafe/plan.go:40-206 | A run after a crash loses no file unless a look failed while a source was occupied together with its private name, and ends with every file moved if nothing fails |
| `FilePlanCycles.CycleLosesContent` | internal/fsafe/plan.go:77-182 | Any three files of one size in a cycle, the second unlike the others, stopped after two publications: the next run is accepted, goes all the way, and the second content is gone |
| `FileTables.ConflictIsPrefix` | internal/store/repository.go:1392-1395 | Two paths conflict exactly when the components of one are a prefix of the other's |
| `FileTables.RewriteComponents` | internal/store/repository_qbt_surface.go:345-353 | Renaming a folder replaces its components at the head of a path and keeps the rest |
| `FileTables.RewriteKeepsOrder` | internal/store/repository_qbt_surface.go:345-353 | Two files of a renamed folder contain one another after the rename exactly if they did before |
| `FileTables.RewriteInjective` | internal/store/repository_qbt_surface.go:345-353 | Different files of a renamed folder get different paths |
| `FileTables.FileTable.SetFileOverride` | internal/store/repository.go:488-589 | Succeeds exactly when no other file's path conflicts; keeps paths conflict-free; keeps the table valid exactly when the index is outside the list, the file stays selected or another one is |
| `FileTables.FileTable.SetFilePriorities` | internal/store/repository.go:603-683 | Succeeds exactly when every index is in the list or has an override, and something stays selected; changes those priorities only, and keeps the table valid exactly when a file of the list stays selected, which is so unless an override lies outside the list |
| `FileTables.FileTable.RenameFolder` | internal/store/repository_qbt_surface.go:293-393 | Succeeds exactly when something is under the folder and the rewritten paths are pairwise free of conflicts; stores exactly the rewritten paths, and keeps the table valid |
| `FileTables.AllApart` | internal/store/repository_qbt_surface.go:358-365 | The nested loops find a conflicting pair exactly if there is one |
| `FileTables.RefolderedEffective` | internal/store/repository_qbt_surface.go:366-387 | After the stored changes every effective path is the rewritten one, with its priority |
| `FileTables.OverrideSelection` | internal/store/repository.go:568 | Exactly when an override leaves a file selected |
| `FileTables.OverrideCanDeselectAll` | internal/store/repository.go:488-491 | An override with priority 0 on the only selected file leaves none selected |
| `FileTables.PhantomSelection` | internal/store/repository.go:637-671 | With an override outside the list, deselecting the only file of the list is accepted |
| `FolderRenames.CompletedFolderPlans` | internal/httpapi/torrents.go:1741-1765 | The plans are those of the selected files whose path the rename changes, each from its stored path to the path that the table will store |
| `FolderRenames.PlanMembers` | internal/httpapi/torrents.go:1747-1763 | A plan is in the list exactly when it is that of a selected file whose path changes |
| `FolderRenames.BookHasPlanned` | internal/httpapi/torrents.go:1758-1762 | On conflict-free paths each planned file keeps its own entry among the moves |
| `FolderRenames.FolderPlanDisjoint` | internal/httpapi/torrents.go:1741-1765 | The plans of a conflict-free table have separate sources, targets and private names and exclude nothing, whether or not the table will take the new paths |
| `FolderRenames.DiskFollowsTable` | internal/httpapi/torrents.go:1719-1734 | When the plan went all the way and the table takes the new paths, each selected file's content is at its new stored path |
| `FolderRenames.MovedButNotStored` | internal/httpapi/torrents.go:1719-1737 | When the plan went all the way and the table keeps the old paths, a planned file's content is not at its stored path |
| `FolderRenames.RenameOnDisk` | internal/httpapi/torrents.go:1719-1733 | The disk step leaves a refused plan untouched, otherwise what a run of the plan leaves, and succeeds on an accepted plan if nothing fails |
| `FolderRenames.RenameFolder` | internal/httpapi/torrents.go:1688-1739 | A malformed path changes nothing; after a successful disk step with plans the table refuses exactly if a name is not plain or rewritten paths conflict; with files in place that differ, disk and table agree exactly if nothing was planned or that guard holds; a refused disk step loses no file and needs a refused plan or a fault |
| `FolderRenames.TableCanRefuseAfterDisk` | internal/httpapi/torrents.go:1728-1737 | The disk can move files that the table then refuses to rename, because an excluded file's path is in the way only in the table |
| `LocalVerify.PlanVerification` | internal/reconcile/reconcile.go:799-833 | The loop builds the plan of every file from its place in the torrent to its stored path, the renumbered list of selected files, and whether any override exists |
| `LocalVerify.ExpectationExact` | internal/reconcile/reconcile.go:846-857 | With conflict-free stored paths the renumbered list passes the manifest check, without overflow, exactly when a file is selected and every selected path passes the path check |
| `LocalVerify.OverrideKeepsPathsValid` | internal/store/repository.go:488-589 | Storing an override keeps every path valid exactly if its own path is valid or its file is not in the list |
| `LocalVerify.FolderKeepsPathsValid` | internal/store/repository_qbt_surface.go:293-393 | A folder rename that the table accepts keeps every path valid |
| `LocalVerify.PrioritiesKeepPathsValid` | internal/store/repository.go:603-683 | Setting priorities neither spoils nor repairs a path |
| `LocalVerify.StoredButNeverVerified` | internal/httpapi/torrents.go:1122-1184 | A name of one control character above 0x7f passes the handler's check and the store's, and the manifest check then fails |
| `DiskVerify.VerificationFindsFiles` | internal/reconcile/reconcile.go:436-482 | However often verification applies the plan to a complete copy, from the first application on that goes all the way each selected file's content is where verification expects it, if no moved file's stored path is another moved or an excluded file's place |
| `DiskVerify.RepeatedVerificationExact` | internal/reconcile/reconcile.go:436-482 | From a complete copy of files that differ, verification can apply the plan and finds the files, twice, if and only if the plans are valid and that condition holds |
| `DiskVerify.DisjointExact` | internal/reconcile/reconcile.go:812-826 | The plans of a stored table have separate sources, targets, private names and exclusions exactly if no moved file's stored path is an excluded file's place |
| `DiskVerify.FreshExact` | internal/reconcile/reconcile.go:812-826 | A complete copy is a disk that no run has touched, in the sense of the planner, exactly under that condition |
| `DiskVerify.FirstIsReady` | internal/fsafe/plan.go:52-135 | The first verification of a complete copy is accepted exactly if the plans are valid and that condition holds |
| `DiskVerify.ReplacingIsRefused` | internal/fsafe/plan.go:125-131 | A file that is to replace an excluded one of the same copy is refused |
| `DiskVerify.ReverificationIsIdle` | internal/reconcile/reconcile.go:471-482 | With every selected file at its stored path and the condition met, no run of the plan changes anything, wherever it stops |
| `DiskVerify.ReverificationExact` | internal/reconcile/reconcile.go:471-482 | With files that differ, each at its stored path, re-verification can apply its plan and changes nothing if and only if the plans are valid and no moved file's stored path is another moved or an excluded file's place |
| `DiskVerify.RenameKeepsHolding` | internal/httpapi/torrents.go:1719-1739 | A folder rename that succeeds on disk and in the table leaves each selected file at its stored path, and nothing else |
| `DiskVerify.ReplacingIsStored` | internal/store/repository.go:488-683 | The store accepts the two renames and the exclusion that let one file replace an excluded one |
| `DiskVerify.ReplacingNeverStarts` | internal/fsafe/plan.go:125-131 | The copy of such a torrent is refused |
| `DiskVerify.ReplacingLosesContent` | internal/fsafe/plan.go:183-204 | With the selected file already at its stored path the plan is accepted and goes all the way, and the file is gone |
| `StatusText.StartsMarkedMeansMarkedFirst` | internal/reconcile/reconcile.go:632-649 | The prefix tests on the stored string are the marker tests of the model |
| `StatusText.TrimIsTrimmed` | internal/domain/state.go:147 | Trimming a marker prefix from the stored string is dropping the first marker |
| `StatusText.MarkCleanupCancelledFaithful` | internal/reconcile/reconcile.go:636-645 | Marking the string cancelled and marking the model cancelled give the same string |
| `StatusText.MarkCopyRemovedFaithful` | internal/reconcile/reconcile.go:651-661 | The same for the copy-removed marker, which replaces a cancelled one |
| `StatusText.CopyEvidenceFaithful` | internal/reconcile/reconcile.go:768-781 | The evidence test on the string is that of the model |
| `RowInvariant.MarksKeepEvidence` | internal/reconcile/reconcile.go:636-661 | A marker never makes evidence of a copy appear |
| `RowInvariant.OfflineRecorded` | internal/reconcile/reconcile.go:1087-1099 | Recording an accepted offline task keeps identity, workspace, state and invariant of the row |
| `RowInvariant.OfflineFinishedRecorded` | internal/reconcile/reconcile.go:1087-1099 | Recording a finished task also leaves a cloud result to copy |
| `RowInvariant.SubmitOfflineGood` | internal/reconcile/reconcile.go:266-302 | Whatever the cloud answers, the proposed row passes every check of the store and keeps the invariant |
| `RowInvariant.WaitOfflineGood` | internal/reconcile/reconcile.go:303-336 | The same while waiting for the offline task |
| `RowInvariant.SubmitCopyGood` | internal/reconcile/reconcile.go:223-261 | The same for resolving, reserving, cleaning up, checking and submitting the copy |
| `RowInvariant.DeleteOldCopyGood` | internal/reconcile/reconcile.go:357-382 | The one step that gives a legacy row a workspace meets the store's condition for it |
| `RowInvariant.WaitCopyGood` | internal/reconcile/reconcile.go:426-470 | The same while waiting for the copy |
| `RowInvariant.VerifyLocalGood` | internal/reconcile/reconcile.go:471-497 | The same for local verification |
| `RowInvariant.CancelGood` | internal/reconcile/reconcile.go:507-529 | The same for cancellation |
| `RowInvariant.PauseGood` | internal/reconcile/reconcile.go:531-575 | The same for pausing; the branch that would fail the download is out of reach |
| `RowInvariant.DeleteGood` | internal/reconcile/reconcile.go:577-630 | The same for deletion; the branch that would fail the download is out of reach |
| `RowInvariant.DecideIsAccepted` | internal/reconcile/reconcile.go:219-505 | For every invariant row and every answer, the state is claimable and the proposal passes identity, workspace, transition and validation checks |
| `Lifecycle.RetryIsRunnable` | internal/domain/state.go:146-179 | The retry target of an invariant FAILED row, applied to the same or any later failed row that still has its paths, is a legal transition to a claimable row with the invariant |
| `Lifecycle.RetryWithExact` | internal/store/queries/downloads.sql:204-226 | Whatever row a retry target was computed from, applying it to a failed row keeps the invariant if and only if the paths that the target needs are recorded |
| `Lifecycle.MoveKeepsPaths` | internal/store/queries/downloads.sql:183-300 | Every worker step and operator statement short of a new submission keeps the cloud result, and copy source and destination together |
| `Lifecycle.StaleRetryBreaks` | internal/httpapi/torrents.go:1822-1833 | A retry target read before the download was deleted and submitted again passes the guard and writes a row without the cloud result that its state needs |
| `Lifecycle.StartIsRunnable` | internal/store/queries/downloads.sql:183-202 | Starting a stopped row resumes a phase whose paths are recorded |
| `Lifecycle.IntentGood` | internal/store/queries/downloads.sql:183-300 | Start, retry, pause, cancel, delete, reverify, move and rename keep the invariant and follow legal transitions; a retry needs the paths of the row that its handler read |
| `Lifecycle.SubmittedGood` | internal/submission/service.go:161-351 | New rows, revived rows and rows that take over retained content satisfy the invariant |
| `Lifecycle.OnlyReservingAddsName` | internal/reconcile/reconcile.go:250-260 | Only the reserving step records a destination name where there was none, and changes nothing else but the schedule |
| `Lifecycle.StepGood` | internal/reconcile/reconcile.go:158-217 | Committed, overdue and name-conflict outcomes all pass the store's checks and keep the invariant |
| `Lifecycle.LifeKeepsInv` | internal/reconcile/reconcile.go:156-217 | Every row of every life of operator intents, worker steps and resubmissions satisfies the invariant; retries may carry any row read since the last submission |
| `Lifecycle.LifeIsSound` | internal/reconcile/reconcile.go:166-169 | From a submission on, no claim meets an unclaimable state, nothing proposed is refused, every failed row can be retried by whoever read a failed row since the last submission, and an unscheduled row is at rest or a cleanup that an operator can retry |
| `Deadlines.StepProgresses` | internal/reconcile/reconcile.go:905-937 | Every committed step rests, lowers the rank within its state, waits at least min(PollInterval, 30s) before a deadline, or enters a later phase |
| `Deadlines.SlotsAreWaits` | internal/reconcile/reconcile.go:905-907 | The number of waits that start before a deadline, between the quotient of time left and pace and one more |
| `Deadlines.StepLowersBudget` | internal/reconcile/reconcile.go:219-497 | Every committed step of an active row ends at COMPLETED or FAILED or lowers the budget made of timeouts and steps ahead |
| `Deadlines.BoundedWorkflow` | internal/reconcile/reconcile.go:219-497 | Absent operator intents no run of committed steps is longer than the budget, and it stops early only at COMPLETED, FAILED or a scheduled row |
| `CopyOrder.EffectsNeedStatus` | internal/reconcile/reconcile.go:342-425 | Copies are requested only while submitting, from a clear destination, where nothing else is done; with a copy source local files are deleted only behind a removal marker |
| `CopyOrder.DecideExplained` | internal/reconcile/reconcile.go:531-661 | A removal marker or clear destination on a proposed row comes from this step's removal or preflight, or was there for the same place |
| `CopyOrder.WorkRemembers` | internal/reconcile/reconcile.go:342-425 | Each step, committed or not, keeps what the status says about the past: a removal marker, a removal since which no copy was requested; a clear destination, a preflight since which nothing but this copy was asked for |
| `CopyOrder.CopiesAreOrdered` | internal/reconcile/reconcile.go:342-425 | Over whole lives with crashes, a copy is requested only after a preflight that found its place empty and since which nothing but this same copy was requested, and with a recorded source local deletion follows a removal since which no copy was requested |
| `Cooperation.CooperationCompletes` | internal/reconcile/reconcile.go:262-487 | When cloud and disk cooperate, eight committed steps take a submission to COMPLETED with every path and the verified content recorded |
| `Schedulers.Worker.Decide` | internal/reconcile/reconcile.go:219-505 | The in-place decision leaves the row and log of the step function; for a stored row that is due, the store accepts the row it leaves, which keeps the invariant and makes progress, and it does to cloud and disk only what its status allows |
| `Claims.Table.ClaimDue` | internal/store/queries/claims.sql:1-16 | Leases the first due row by due time, age and hash, or changes nothing when none is due |
| `Claims.Table.CommitClaim` | internal/store/repository.go:1072-1136 | Refuses exactly what fails the checks, reports a lost claim exactly when state, owner or version no longer match, and otherwise writes exactly the proposed row or meets a name conflict, which needs a newly reserved name |
| `Claims.StepKeepsInv` | internal/store/queries/claims.sql:1-56 | No claim is ever ahead of its row, and one level with it has seen the row as it is |
| `Claims.CommitSeesClaimedRow` | internal/store/repository.go:1067-1071 | A successful commit acts on a row identical to the one claimed, though owners are shared and expiry is unchecked |
| `Claims.ClaimCommitsOnce` | internal/store/repository.go:1067-1071 | No claim is committed twice |
| `Claims.InterleavingsAreSequential` | internal/store/queries/claims.sql:1-56 | Any interleaving of claims, expiries, crashes, commits and operators is a sequential run of its successful updates, each on the row its author read; none is lost |
| `Steps.Others` | internal/store/repository.go:740-1040 | Whatever operators, submissions, resubmissions and other workers run, the commit of any other claim included, rows keep the invariant and change only by gaining versions |
| `Steps.Store` | internal/reconcile/reconcile.go:187-217 | A lost claim stores nothing, a name conflict stores the failure, and an error is reported exactly when the store refuses the row |
| `Steps.Finish` | internal/reconcile/reconcile.go:170-217 | Decide, replace an overdue operation, commit, and commit the failure on a name conflict: what is stored is the matching outcome of the step function, and a refused commit cannot arise |
| `Steps.Step` | internal/reconcile/reconcile.go:156-217 | With others at work between claim and commit, the invariant error and a refused commit are unreachable, and what is stored is the successor of the very row that was claimed |
| `EventFeed.SelectedMembers` | internal/store/queries/outbox.sql:36-49 | An event is selected exactly when it is in the log, in the range and matches the filter |
| `EventFeed.SelectedStable` | internal/nativeapi/handler.go:237-241 | Events committed later do not change what lies up to an old high-water mark |
| `EventFeed.SelectedPrefix` | internal/nativeapi/handler.go:350-355 | Cutting a page after its last event is exactly the selection up to that event's sequence |
| `EventFeed.Feed.ListDownloadEvents` | internal/store/repository_outbox.go:363-407 | Returns the first matching events of the range, all of them if fewer than the limit, and refuses an ordered range never |
| `EventFeed.Feed.WriteEvents` | internal/nativeapi/handler.go:340-370 | The page holds exactly the selected events up to its next cursor, and has_more means the limit was reached |
| `EventFeed.Feed.ServeEvents` | internal/nativeapi/handler.go:217-331 | Every page continues from the client's cursor (or the first high-water mark) and holds exactly the matching events up to its next cursor; an inverted range or a rejected cursor cannot arise from a cursor the log has reached |
| `EventFeed.ExactlyOncePaging` | internal/nativeapi/handler.go:333-339 | A client that follows next_cursor through a growing log receives exactly the matching events, once each and in order |
| `Signals.Signal.Snapshot` | internal/outbox/signal.go:25-34 | Hands out the open channel that the next notification closes |
| `Signals.Signal.Notify` | internal/outbox/signal.go:36-48 | Closes every channel handed out so far and installs an open one |
| `Signals.Signal.ClosedExactly` | internal/outbox/signal.go:25-48 | A channel handed out is closed exactly if a later one has been installed, which is the waking condition of the state machine |
| `Signals.StepKeepsInv` | internal/store/repository_outbox.go:691-708 | While a waiter's channel is open, no event past what it read has been notified, whoever else notifies |
| `Signals.NoLostWakeUp` | internal/nativeapi/handler.go:233-292 | A waiter asleep on an open channel while an event lies past its cursor means that event's Notify is pending, and that it wakes the waiter |
| `Webhook.DelayMonotone` | internal/outbox/payload.go:152-177 | Later attempts never wait less |
| `Webhook.TotalDelayCrossesDeadline` | internal/outbox/outbox.go:62-64 | Twelve delays add up to 72210 seconds, thirteen pass the 24-hour deadline |
| `Webhook.PendingIsWithinDeadline` | internal/webhook/http.go:105-118 | A delivery left pending after a failure has its next attempt before first attempt plus 24 hours |
| `Webhook.AtMostThirteenFailures` | internal/webhook/http.go:105-118 | At most thirteen failed attempts are committed, however many claims crash and raise the attempt count |
| `Webhook.ThirteenFailuresHappen` | internal/webhook/http.go:105-118 | Prompt attempts do commit thirteen failures, and the thirteenth ends the delivery |
| `Manifests.Validate` | internal/reconcile/reconcile.go:731-766 | The loop accepts exactly the lists with consecutive indexes, distinct contained paths and sizes adding up to the total within 64 bits |
| `TorrentMeta.ValidateRelativePath` | internal/torrentmeta/torrentmeta.go:334-355 | Accepts exactly the paths of good components within the limits, and joins them |
| `TorrentMeta.PathLengthIsLength` | internal/torrentmeta/torrentmeta.go:338-351 | The running byte count is the length of the joined path |
| `TorrentMeta.MultiFiles` | internal/torrentmeta/torrentmeta.go:376-411 | Accepts exactly the lists whose files pass every check, and returns them with their total |
| `TorrentMeta.MultiFilesVerify` | internal/torrentmeta/torrentmeta.go:376-411 | Every list the parser accepts passes the scheduler's independent check |
| `TorrentMeta.AcceptedTableExact` | internal/torrentmeta/torrentmeta.go:376-411 | An accepted list makes a table free of conflicts exactly if no file's path leads through another file |
| `TorrentMeta.NestedIsAccepted` | internal/torrentmeta/torrentmeta.go:376-411 | The parser accepts a file and a folder of one name |
| `TorrentMeta.SingleFileVerifies` | internal/torrentmeta/torrentmeta.go:366-374 | So does every accepted single file |
| `LoginLimiter.Limiter.PurgeLoginAttempts` | internal/session/store.go:314-320 | Removes exactly the entries whose window and ban are over |
| `LoginLimiter.Limiter.EvictLoginAttempt` | internal/session/store.go:322-334 | Removes the least recently touched entry, the first in order among equals |
| `LoginLimiter.Limiter.AuthorizeLogin` | internal/session/store.go:251-284 | One login is the specified step of the table, which stays within capacity and well formed while the clock does not run backwards |
| `LoginLimiter.PurgedIsSound` | internal/session/store.go:314-320 | After purging, an entry with a ban is banned and every other has fewer than five failures |
| `LoginLimiter.BanHolds` | internal/session/store.go:259-263 | Until it ends, and unless evicted, a ban refuses every login of the address, valid credentials included |
| `LoginLimiter.BanEnds` | internal/session/store.go:264-267 | From the end of the ban valid credentials are allowed |
| `LoginLimiter.FifthFailureBans` | internal/session/store.go:268-283 | The fifth failure within five minutes bans the address for exactly fifteen minutes, whatever other addresses do, unless its entry was evicted |

## Left out

- FilePlans.ApplyFilePlan: the disk is flat. Parent directories, symbolic links in the middle of a path, the evaluation
  of the root and its containment check are not modelled, and no source or target is an ancestor of another.
- FilePlans.Exclude: a file that disappears between the look and the removal is not modelled; only the plan changes the
  disk.
- FilePlanTheorems.ApplyAgain: promises nothing about a run in which a look failed while a source was occupied together
  with its private name; `FilePlanTheorems.FailedLookExact` shows that nothing can be promised there.
- FolderRenames.RenameFolder: what disk and table say about each other is stated for a table whose selected files are on
  disk and whose private names are unused; planner and table are called without others changing the table in between.
- Lifecycle.LifeKeepsInv: a retry carries a row read since the last submission; for older ones see
  `Lifecycle.StaleRetryBreaks`. Legacy rows enter with the invariant, which asks that a row with verified content or
  evidence of a copy has a reserved name; taking over retained content without one is not modelled.
- Lifecycle.IntentGood: the guarded updates are functions on the row; `Steps.Others` runs them on the shared table.
- Lifecycle.SubmittedGood: building and reviving a submission is modelled on values; tags, trackers and file insertion
  are not in the row.
- Lifecycle.StepGood: a name conflict is assumed to arise only on the commit that reserves a name.
- RowInvariant.DecideIsAccepted: that the local verifier reports an absolute path other than the save path is assumed of
  its answers. Submission URI, category, tags, creation and update times and the text of errors are not in the row.
- Deadlines.BoundedWorkflow: a step that does no remote or local work is assumed not to outlive its lease, and errors
  that commit nothing are not counted.
- CopyOrder.CopiesAreOrdered: the steps of one row are atomic; a stale worker's late remote call is not ordered. Local
  deletion means deletion of the whole copy: the removal of excluded files by the plan of a verification is not in the
  log.
- Claims.InterleavingsAreSequential: each SQL statement is atomic; versions do not wrap around.
- EventFeed.Feed.ServeEvents: a request is woken finitely often before its fixed timer fires, and takes no snapshot of
  the signal; the order of snapshot and read is that of the state machine in `Signals`. Query parsing, cursor encoding
  and JSON are not modelled; payload validity is a flag.
- Webhook.AtMostThirteenFailures: without replay, which starts a new schedule; soft-deleted endpoints and the choice of
  the next delivery are not modelled.
- TorrentMeta.MultiFiles: text is taken to be valid UTF-8, the only kind that the parser accepts.
- Schedulers.Worker.WaitOffline: the check for an empty name of a finished task is dead code and left out of the
  in-place version; the step function keeps it.
- Progress values are reals and are not rounded.
- DiskVerify.VerificationFindsFiles: follows the disk through the plan only, and from a disk that holds the files of the
  torrent and nothing else; reading sizes back and reporting the content path are answers of the environment to the
  workflow model. Without any override verification skips the plan.
- The gRPC client, HTTP routing, forms, templates, sessions, migrations, the setup wizard, cryptography and logging are
  not part of this model.
