# repo-link: verified models

repo-link mirrors local tasks to GitHub issues and project boards. This project models the parts of it
where correctness depends on many steps or on arbitrary data, and proves what those parts promise, for
every input, every run or every reachable state:

- **Outbox.** `Outbox` and `OutboxRepo` are the queue table and its repository. `Protocol` is a step
  system over it: an action is one port call with its answer, an enqueue, an edit, a detach, a crash or a
  startup requeue. `DrainBounds` bounds a pass and counts drafts. `Arms` says when an
  entry is stamped, in conflict or retried, as a condition on the answers its calls get. `Drainer` is the drainer as a class that
  books each port call as a protocol action, so each pass is a run of the step system. `Startup` is the
  daemon's recovery.
- **Ready frontier.** `Blockers`, `ParentChains`, `ReadyTree` and `ReadyView` cover the blocker walk, the
  parent index, the ancestor closure, the memoised rank and the nested forest, on relation graphs that may
  be cyclic or corrupt. `Sorting` holds the sort the source takes from its library.
- **Search text.** `Utf8` is UTF-8 as section 3 of RFC 3629 defines it. `Chunker`, `Packing` and `Chunks`
  are the chunker, `Fold` the case-fold literal search (the fold itself is any function from a scalar to a
  string), `MatchExpr` the full-text expression and a reader for it.
- **Poller.** `Poller` is the poller with its watermarks; `PollRows` follows one row through a page,
  `PollDelivery` says when board changes arrive, `PollRepeats` what repeated polling leaves alone.
- **Grace prune.** `GracePrune` is the miss counter of the daemon's tick.
- **Mirror.** `TaskStates` holds the shared task attributes. `Mirror` is the content push: diff, patch,
  re-baseline, and the pull that follows.
  `MirrorRuns` follows one task through whole histories of edits and pushes, `MirrorSystem` adds edits of the
  remote by others, polls and pulls.

Ports appear as parameters that answer each call: the remote, the clock, the task store's failures and the
filesystem probe may answer anything, and a pass may stop at any port call.

Where code and documentation disagree, the model follows the code:

- crates/application-sync/src/drainer.rs:15-32 promises per-task FIFO. The claim orders by enqueue time, so
  insertion order survives only while no entry is inserted with an earlier stamp than an unresolved sibling.
  A clock step breaks that, and so do two processes: crates/domain-sync/src/outbox.rs:250-263 stamps an entry
  before its insert takes the writer lock. `Outbox.ClaimKeepsFifoExactlyWhenClocked`,
  `Outbox.AppendOrderlyExactlyWhen` and `Outbox.ClaimOvertakesExactlyLaterStamps` give exact conditions,
  `Outbox.ClockStepOvertakes` a table where the promise fails. Everything else proved of the protocol holds
  for arbitrary stamps.
- crates/domain-task/src/task.rs:1027-1030 says assignee lists are compared as sets because GitHub reorders
  them. The read-back at crates/application-sync/src/drainer.rs:510-512 compares sequences:
  `Mirror.ConflictsExactlyWhen` and `Mirror.ReorderedAnswerConflicts`.
- A drained `DirtyRemote` task becomes `Synced` while remote drift in a field the push did not send is still
  there: `Mirror.DrainCanHideRemoteDrift`, and `Mirror.MirroredExactlyWhenNoDrift` for the exact condition.
- crates/domain-task/src/task.rs:880-895 lets an edit back to the baseline make a task `Synced`. After a push
  that landed but was never confirmed the remote then keeps the abandoned value, and no drain repairs it; only
  a poll that finds the item past its watermark, or a pull, does: `MirrorRuns.LostPushThenRevert`.
  `MirrorRuns.EditMisleadsExactlyWhen` and `MirrorRuns.SyncedHoldsExactlyWhen` give the exact conditions.
- crates/application-sync/src/poller.rs:502-504 calls a steady-state re-poll a no-op. When a pending priority
  push is dead-lettered between two passes, the second pass over the unchanged board overwrites the local
  priority: `PollRepeats.ReleasedPushIsOverwritten`, with the exact condition in
  `PollRepeats.SecondPassIsIdleExactlyWhen`.
- A ready task inside or below a cycle of parents is in no tree: the forest holds exactly the kept tasks
  whose parent chain ends (`ReadyTree.BuildReadyTree`, `ReadyTree.ParentCycleShowsNothing`).

Check everything with `dafny verify dfyconfig.toml`.

## Model

| member | source | states |
|---|---|---|
| Protocol.ClaimsNeverOvertake | crates/application-sync/src/drainer.rs:15-32 | In any run of enqueues, claims, answers, failures, detaches, crashes and restarts in which no insert is stamped earlier than an unresolved entry of its own task, a claim takes a row whose older siblings are all terminal and whose younger siblings are all pending |
| Protocol.NeverTwoInflight | crates/application-sync/src/drainer.rs:15-32 | In every run, whatever the stamps, no task has two entries in flight, and a claim is possible only for a task with none |
| Protocol.OrderKeeps | crates/application-sync/src/drainer.rs:242-322 | Each action that does not insert below the stamp of an unresolved sibling keeps the FIFO shape and the stamp order |
| Protocol.EveryOrderedRunKeepsOrder | crates/application-sync/src/drainer.rs:15-32 | Every run of such actions keeps the FIFO shape: terminal prefix, one inflight head, pending tail per task |
| Protocol.EveryRunKeeps | crates/application-sync/src/drainer.rs:242-322 | Every run, whatever the clock shows, keeps unique ids, at most one inflight entry per task, ownership of the entry being applied, and the replay guards |
| Protocol.EveryRunStaysUnderCap | crates/application-sync/src/drainer.rs:158-179 | In every run, whatever the clock shows, no unresolved entry has reached the attempt cap |
| Protocol.ReplaysAreGuarded | crates/application-sync/src/drainer.rs:53-81 | In every run, whatever the clock shows, while a task carries its item no step stands at draft creation for it, while it carries its issue node none stands at conversion, and a finished create or convert has its handle written back |
| Protocol.RowsKeep | crates/application-sync/src/drainer.rs:242-322 | Each action keeps ids unique and at most one entry per task in flight, whatever stamps it writes |
| Protocol.GuardedKeeps | crates/application-sync/src/drainer.rs:578-697 | Each action keeps the guards around creation, attachment and conversion |
| Protocol.OwnsKeeps | crates/application-sync/src/drainer.rs:245-258 | The entry being applied stays in the table, inflight and unchanged, whatever others do |
| Protocol.UnderCapKeeps | crates/application-sync/src/drainer.rs:297-318 | A retry is recorded only while it leaves the entry below the cap |
| Protocol.ResolveTouches | crates/application-sync/src/drainer.rs:253-319 | Succeeding, dead-lettering or retrying changes the owned row and no other, and leaves it terminal or pending |
| Outbox.ClaimTakesTheHead | crates/infra-sqlite/src/outbox_repo.rs:134-210 | The claimed row has no unresolved older sibling |
| Outbox.ClaimHealthy | crates/infra-sqlite/src/outbox_repo.rs:134-210 | A claim keeps ids unique and one entry in flight; on an ordered table it keeps the order |
| Outbox.ClaimKeepsFifoExactlyWhenClocked | crates/infra-sqlite/src/outbox_repo.rs:134-210 | A claim keeps FIFO if and only if no older-inserted pending sibling carries a later enqueue time |
| Outbox.ClockStepOvertakes | crates/infra-sqlite/src/outbox_repo.rs:134-210 | A concrete table with stamps out of insertion order in which the younger entry is claimed first |
| Outbox.AppendHealthy | crates/infra-sqlite/src/outbox_repo.rs:31-73 | An insert keeps ids unique and one entry in flight, whatever its stamp |
| Outbox.AppendOrderlyExactlyWhen | crates/infra-sqlite/src/outbox_repo.rs:31-73 | An insert keeps the order if and only if it is not stamped earlier than an unresolved entry of its task |
| Outbox.ClaimOvertakesExactlyLaterStamps | crates/infra-sqlite/src/outbox_repo.rs:134-210 | On any table a claimed task has nothing else in flight, and an older-inserted sibling is overtaken if and only if it is pending with a later stamp |
| Outbox.ResolveHealthy | crates/infra-sqlite/src/outbox_repo.rs:212-272 | Turning an inflight row terminal or pending keeps ids unique and one entry in flight, and the order of an ordered table |
| Outbox.RequeueHealthy | crates/infra-sqlite/src/outbox_repo.rs:274-290 | Requeueing orphans keeps ids unique and one entry in flight, and the order of an ordered table |
| Outbox.DeleteHealthy | crates/infra-sqlite/src/outbox_repo.rs:309-321 | The detach scrub keeps ids unique and one entry in flight, and the order of an ordered table |
| Outbox.DeleteKeepsOthers | crates/infra-sqlite/src/outbox_repo.rs:309-321 | Exactly the task's pending adds disappear; all other rows stay, in order |
| Outbox.EligibleIsTheDueHead | crates/infra-sqlite/src/outbox_repo.rs:134-210 | On an ordered table a row is eligible if and only if it is pending, due and every older sibling is terminal |
| OutboxRepo.OutboxRepository.Enqueue | crates/infra-sqlite/src/outbox_repo.rs:31-88 | Appends one fresh pending row, except for a type projection with a live sibling of its kind or an identical dead-lettered one, which changes nothing |
| OutboxRepo.OutboxRepository.EnqueueIfAbsent | crates/infra-sqlite/src/outbox_repo.rs:90-132 | Appends one fresh pending row if and only if the task has no pending, inflight or failed entry, and reports whether it did |
| OutboxRepo.OutboxRepository.ClaimNextEligible | crates/infra-sqlite/src/outbox_repo.rs:134-210 | Claims the least eligible row in claim order and flips only it; answers none only if no row is eligible |
| OutboxRepo.OutboxRepository.MarkSucceeded | crates/infra-sqlite/src/outbox_repo.rs:212-223 | Every other row is unchanged and in place; the named one keeps its identity and is succeeded |
| OutboxRepo.OutboxRepository.MarkFailed | crates/infra-sqlite/src/outbox_repo.rs:225-244 | Every other row is unchanged and in place; the named one keeps its identity and is failed with one more failure |
| OutboxRepo.OutboxRepository.RecordRetry | crates/infra-sqlite/src/outbox_repo.rs:246-272 | Every other row is unchanged and in place; the named one keeps its identity and is pending with one more failure and the given due time |
| OutboxRepo.OutboxRepository.RequeueOrphanedInflight | crates/infra-sqlite/src/outbox_repo.rs:274-290 | Every inflight row is pending again and due at once with its attempts kept, and no other row changes |
| OutboxRepo.OutboxRepository.DeletePendingAddItems | crates/infra-sqlite/src/outbox_repo.rs:309-321 | Exactly the task's pending adds disappear; the rest is what remains of the table, in order |
| DrainBounds.PassIsBounded | crates/application-sync/src/drainer.rs:242-322 | Without outside enqueues every drainer step of a pass costs at least one unit of a finite potential, so the pass ends whatever the clock shows, whatever the remote answers, and however often other processes edit or detach tasks meanwhile |
| DrainBounds.EveryRunIsPaidFor | crates/application-sync/src/drainer.rs:242-322 | Over every run, with enqueues, edits, detaches, crashes, new passes and restarts in any order, the drainer steps are covered by the starting potential and the work that came in from outside |
| DrainBounds.OutsideStep | crates/application-sync/src/drainer.rs:242-322 | An outside step adds no more work than its entry, sweep or requeued attempts; edits, detaches and crashes add none |
| DrainBounds.StepLowers | crates/application-sync/src/drainer.rs:242-322 | Every drainer step strictly lowers the potential, whatever its stamp, follow-ups of failing attempts included |
| DrainBounds.DraftsArePaidFor | crates/application-sync/src/drainer.rs:53-81 | Over every run, the creation calls for a task that may have left a draft, unanswered ones included, are covered by the draft it holds, lost creations or write-backs, and cleared items |
| DrainBounds.OnlySucceedSucceeds | crates/application-sync/src/drainer.rs:253-262 | A row becomes succeeded only by the success step of the pass that owns it |
| DrainBounds.SuccessIsWrittenBack | crates/application-sync/src/drainer.rs:578-697 | In every run, whatever the clock shows, a create or convert entry becomes succeeded only with its item id or issue node id written back |
| Drainer.DelayFor | crates/application-sync/src/drainer.rs:172-179 | The delay of attempt n is the n-th of the schedule, the last one past its end, zero for an empty schedule |
| Arms.Projections | crates/application-sync/src/drainer.rs:1012-1081 | A card owes exactly the status, priority and type writes its board resolves, with the resolved field and option, to its own project and item only, and none when the workspace has no board or moved off the project |
| Arms.GoodWorldStamps | crates/application-sync/src/drainer.rs:445-931 | When every call answers, agrees and carries usable handles, every entry whose task loads is stamped |
| Drainer.OutboxDrainer.constructor | crates/application-sync/src/drainer.rs:208-235 | A cap of zero is raised to one |
| Drainer.OutboxDrainer.DrainOnce | crates/application-sync/src/drainer.rs:242-322 | The pass is a run of the protocol; it ends drained only when nothing is eligible at the time read for its last claim, counts its successes exactly, and makes boundedly many port calls and booked steps for any answers and any clock. It ends on a port error, with an abort, only if one of its calls failed. If every call answers, agrees and carries usable handles and every task loads, it ends drained and every row it touched succeeded at its first attempt |
| Drainer.OutboxDrainer.ClaimUntilDry | crates/application-sync/src/drainer.rs:245-320 | The claim loop ends drained at the time read for its last claim with its successes counted, or stopped, and then some call failed; in a good world with loadable tasks every row it touched succeeded |
| Drainer.OutboxDrainer.ClaimAndApply | crates/application-sync/src/drainer.rs:245-320 | One turn claims the next row and resolves it as the answers to its calls decide: succeeded exactly when the arm's condition for a stamp holds; it stops only if a call failed |
| Drainer.OutboxDrainer.Apply | crates/application-sync/src/drainer.rs:445-931 | The disposition as a condition on the answers: a field write, content push or relation edge is stamped if and only if its task loads where needed, its call answered and its read-back agreed; an add, create or convert if and only if every call it makes answered with a usable handle and its write-back and follow-ups got through; a refused read-back or unusable handle is a conflict and everything else a retry |
| Drainer.OutboxDrainer.ApplyAddItem | crates/application-sync/src/drainer.rs:532-577 | Stamped if and only if the add answered a nonempty id, the workspace lookup answered, and, when the workspace still targets the project, the write-back and every owed enqueue got through; an empty id is a conflict, anything else a retry |
| Drainer.OutboxDrainer.CallAddItem | crates/application-sync/src/drainer.rs:536-550 | Goes on exactly when the remote answered with a nonempty id; an empty id is a conflict, an error a retry |
| Drainer.OutboxDrainer.WriteBackIfTargeted | crates/application-sync/src/drainer.rs:551-577 | The id is written back only if the workspace still targets the project; otherwise tasks and table are untouched and the entry succeeds |
| Drainer.OutboxDrainer.WriteBackProjectItem | crates/application-sync/src/drainer.rs:936-947 | Exactly the task's item id changes, to the answered id |
| Drainer.OutboxDrainer.EnqueueStatusFollowUp | crates/application-sync/src/drainer.rs:1012-1081 | A finished follow-up phase enqueued exactly the status, priority and type writes the board owes, in that order |
| Drainer.OutboxDrainer.LoadAndCreate | crates/application-sync/src/drainer.rs:591-612 | Goes on without a creation call if and only if the task loads and already carries its item, and then with that item; the task table is unchanged |
| Drainer.OutboxDrainer.MintDraft | crates/application-sync/src/drainer.rs:601-612 | Goes on exactly with a nonempty answered id; an empty id is a conflict |
| Drainer.OutboxDrainer.ApplyCreateDraftIssue | crates/application-sync/src/drainer.rs:578-620 | Stamped if and only if the task loads, carries its item or is answered a nonempty one and keeps it, and the follow-ups get through; stamped only with the item written back |
| Drainer.OutboxDrainer.LoadAndConvert | crates/application-sync/src/drainer.rs:660-685 | Goes on without a conversion call if and only if the task loads and already carries its issue node; the task table is unchanged |
| Drainer.OutboxDrainer.ConvertDraft | crates/application-sync/src/drainer.rs:671-685 | Goes on exactly when the answer is an issue node with a number; anything else is a conflict |
| Drainer.OutboxDrainer.WriteBackConvertedIssue | crates/application-sync/src/drainer.rs:956-977 | The task carries the answered number and node |
| Drainer.OutboxDrainer.ApplyConvertDraftToIssue | crates/application-sync/src/drainer.rs:646-697 | Stamped if and only if the task loads, carries its issue node or is answered a usable one and keeps it, and the follow-up gets through; stamped only with the node written back |
| Drainer.OutboxDrainer.EnqueueIssueTypeFollowUp | crates/application-sync/src/drainer.rs:1105-1143 | A finished phase enqueued exactly the type projection that resolved, if any |
| Drainer.OutboxDrainer.CallOtherPort | crates/application-sync/src/drainer.rs:698-740 | A port error retries; only a content push or a status write whose read-back disagrees is a conflict |
| Drainer.OutboxDrainer.SweepIssueTypes | crates/application-sync/src/drainer.rs:328-382 | The sweep visits exactly the pending tasks, in order, one lookup each, and enqueues for each the type projection that resolved; it stops only if a call failed |
| Drainer.OutboxDrainer.SweepOneTask | crates/application-sync/src/drainer.rs:328-382 | Each swept task gets exactly the type projection that resolved, if any |
| Drainer.OutboxDrainer.ResolveStamped | crates/application-sync/src/drainer.rs:253-262 | A stamped entry takes the stamp step and then the success step |
| Drainer.OutboxDrainer.ResolveConflict | crates/application-sync/src/drainer.rs:263-287 | A conflict flags the task if it loads and its state allows it, and dead-letters the entry either way; flagging a DirtyLocal, DirtyRemote or Synced task only; the pass stops exactly when a needed save or the dead-letter write fails |
| Drainer.OutboxDrainer.ResolveRetry | crates/application-sync/src/drainer.rs:288-319 | Below the cap the row is due after the scheduled delay counted from the failure; at the cap it is dead-lettered |
| Startup.RecoveryIsExact | crates/app-daemon/src/daemon.rs:316-328 | After recovery nothing is inflight, every other row is unchanged and in place, and each task gains one entry exactly when it owes a push and has no pending, inflight or dead-lettered entry |
| Startup.ReconcileAddsExactly | crates/app-daemon/src/daemon.rs:354-419 | The reconcile only appends fresh pushes, each to the repository and remote id of a listed task: one per task that owes one and has no blocking entry, none for any other |
| Startup.RecoveryIsIdempotent | crates/app-daemon/src/daemon.rs:564-577 | A second recovery over the same tasks leaves the table as it is |
| Startup.InterruptedRecoveryResumes | crates/app-daemon/src/daemon.rs:354-419 | A recovery cut short by a failing insert and a later complete one together add exactly what one complete recovery adds |
| Startup.RecoveryIsARun | crates/app-daemon/src/daemon.rs:564-577 | Recovery is a run of the protocol; it keeps FIFO order whatever the clock shows while it runs |
| Startup.ReconcileDirtyIntoOutbox | crates/app-daemon/src/daemon.rs:354-419 | The scan computes the specified table for the tasks up to the first insert that fails, none if they cannot be listed, and counts what it added if nothing fails |
| Startup.Recover | crates/app-daemon/src/daemon.rs:564-577 | Requeue first, then reconcile, each of which may fail without stopping the other |
| Blockers.IsTransitivelyBlocked | crates/application-query/src/service.rs:1090-1119 | The stack walk answers true if and only if a nonempty chain of blocked-by edges through known tasks reaches an open task, on any graph, cycles included |
| Blockers.SelectReady | crates/application-query/src/service.rs:796-812 | Exactly the open, unconflicted, unblocked candidates with their multiplicity, by priority and then age |
| Blockers.BlockedTasks | crates/application-query/src/service.rs:105-141 | The page is the asked slice of the full blocked list; each entry lists exactly its open direct blockers; no listed task is ready |
| Blockers.BlockedIsExact | crates/application-query/src/service.rs:105-141 | The full list is the rows with an open direct blocker, once each and in order, with exactly those blockers |
| Blockers.BlockersInOrder | crates/application-query/src/service.rs:125-130 | A row's blocker list holds, relation by relation and in order, the other end of exactly the blocked-by edges to known open tasks |
| Blockers.Paginate | crates/application-query/src/service.rs:768-782 | The page skips the offset first and then takes up to the limit |
| ReadyTree.ReverseParentIndex | crates/application-query/src/service.rs:817-836 | Every claimed child maps to the lowest id that claims it, whatever order tasks are visited in |
| ReadyTree.ParentTaskResolves | crates/application-query/src/service.rs:842-854 | The parent is the other end of the first child edge that does not name the task itself if that end is known; if there is no such edge or its end is unknown, the lowest id that claims the task; and none otherwise |
| ReadyTree.ParentsAndChildren | crates/application-query/src/service.rs:930-946 | A task's parent is the one its relations resolve to, if it is in the workspace, and the child lists are the exact inverse without repeats |
| ReadyTree.KeepAncestors | crates/application-query/src/service.rs:948-957 | The stack loop keeps exactly the ready tasks and their in-workspace ancestors, on cyclic parents too |
| ReadyTree.SubtreePriority | crates/application-query/src/service.rs:1000-1029 | For a task whose parent chain ends, the memoised rank is the best priority of a ready task at or below it, whatever is already in the memo and whatever cycles exist elsewhere |
| ReadyTree.RankAll | crates/application-query/src/service.rs:959-963 | All kept tasks whose parent chain ends are ranked right, in any order of filling the memo |
| ReadyTree.ReadyTreeCtx.Node | crates/application-query/src/service.rs:869-912 | The tree at a task holds its kept descendants exactly once, each under its own parent, siblings in branch order, only ready tasks as leaves |
| ReadyTree.ReadyTreeCtx.Kids | crates/application-query/src/service.rs:874-889 | Exactly the kept children, sorted by best reachable priority and then title |
| ReadyTree.Roots | crates/application-query/src/service.rs:970-980 | The roots are exactly the kept tasks without an in-workspace parent, in branch order |
| ReadyTree.BuildForest | crates/application-query/src/service.rs:970-995 | The forest over any sound frame is complete, without repeats, nested and ordered |
| ReadyTree.BuildReadyTree | crates/application-query/src/service.rs:922-995 | The forest contains each kept task whose parent chain ends exactly once and nothing else, has ready leaves, orders every level by best reachable priority then title, and shows a task's data on ready nodes only. Each node is nested under its parent as the relations name it: the known other end of the first child edge not naming the task itself, or else the lowest id that claims the task, if it is in the workspace |
| ReadyTree.OrderedMeans | crates/application-query/src/service.rs:874-889 | Of two siblings the earlier has the better best-reachable priority, or the same and a title that is not greater |
| ReadyTree.ParentCycleShowsNothing | crates/application-query/src/service.rs:922-995 | Two ready tasks that name each other as parent appear in no tree |
| ReadyView.OneWorkspace | crates/application-query/src/service.rs:371-397 | A workspace is omitted exactly when nothing in scope is ready; otherwise its tree is the forest over its candidates |
| ReadyView.ReadyViewOf | crates/application-query/src/service.rs:336-405 | The view lists exactly the workspaces with something ready, in order, each with its forest |
| ReadyView.FilteringIntersects | crates/application-query/src/service.rs:344-393 | The ready set under a filter is the unfiltered ready set intersected with the filter's candidates |
| Chunker.LastSentenceBoundary | crates/application-search/src/chunker.rs:170-174 | The last terminator byte before the limit, or none if there is none |
| Chunker.SentenceEndInBytes | crates/application-search/src/chunker.rs:170-174 | The byte search agrees with the last terminator scalar: no byte inside a scalar is taken for a terminator |
| Chunker.SplitParagraphFragment | crates/application-search/src/chunker.rs:139-166 | The byte-stepping cut is the scalar cut: after the last sentence end of the longest prefix that fits, at that prefix's end without one, after one scalar when none fits |
| Chunker.CutFits | crates/application-search/src/chunker.rs:139-166 | A cut chunk is at most 900 bytes, or at most 904 under a header with fewer than four bytes of room |
| Chunker.CutPointMeans | crates/application-search/src/chunker.rs:139-166 | With the longest fitting prefix in hand: one scalar if it is empty, up to its last sentence end if it has one, all of it otherwise |
| Packing.CutParagraph | crates/application-search/src/chunker.rs:117-123 | The pieces are nonempty and concatenate to the paragraph; each chunk is header plus piece and fits |
| Packing.PackBody | crates/application-search/src/chunker.rs:96-128 | The chunks are the header plus nonempty payloads that regroup to exactly the nonempty paragraphs in order, every chunk fits, and the packing is greedy: a paragraph starts a new chunk only if it does not fit behind the running one, and is cut only if it does not fit there or, with no running chunk, under the bare header |
| Packing.PackingIsForced | crates/application-search/src/chunker.rs:96-128 | Only one list of chunks meets that description of a header and body |
| Chunks.BoundedAnchor | crates/application-search/src/chunker.rs:78-92 | The anchor is the longest prefix within the limit, marked exactly when shortened, and leaves at least 300 bytes of body room |
| Chunks.ChunkFormatted | crates/application-search/src/chunker.rs:51-73 | Blank bodies give the title or nothing; otherwise the body chunks carry every character but line breaks once and in order under their header; an oversized title is emitted whole and its body chunks are at most 900 bytes |
| Chunks.JoinSplits | crates/application-search/src/chunker.rs:132-134 | Paragraphs joined by blank lines give the body back |
| Chunks.SplitIsFine | crates/application-search/src/chunker.rs:132-134 | No paragraph contains a blank-line break |
| Chunks.PayloadsKeepText | crates/application-search/src/chunker.rs:96-128 | However paragraphs were grouped and cut, the payloads in order are the body up to line breaks |
| Chunks.BodyHasChunk | crates/application-search/src/chunker.rs:51-73 | A body that is not blank gets at least one chunk |
| Chunks.InlineCrlf | crates/application-search/src/chunker.rs:52-54 | CRLF normalisation changes nothing but line breaks |
| Chunks.CrlfIsReplaced | crates/application-search/src/chunker.rs:52-54 | Every CRLF becomes one line feed, wherever it stands |
| Chunks.NoCrlfNoChange | crates/application-search/src/chunker.rs:52-54 | Text without CRLF is left as it is |
| Chunks.HeadersRead | crates/application-search/src/chunker.rs:51-73 | The header of a core and of a comment chunk, character by character |
| Chunks.AnchorLimits | crates/application-search/src/chunker.rs:78-92 | The title limits in bytes |
| Utf8.BoundaryIsPrefix | crates/application-search/src/chunker.rs:148-150 | A byte offset is a char boundary exactly when it is the length of a prefix of whole scalars |
| Fold.FoldSource | crates/application-search/src/fold.rs:35-56 | The folded text, and for each folded character its own bytes and the bytes of the scalar it came from |
| Fold.FindLiteralSpans | crates/application-search/src/fold.rs:64-90 | One span per occurrence of the folded needle, overlapping ones included, in order; none for an empty needle |
| Fold.Occurrences | crates/application-search/src/fold.rs:64-90 | Exactly the places where the needle occurs, strictly increasing |
| Fold.MatchPlace | crates/application-search/src/fold.rs:75-77 | The byte search stops at the first scalar where the needle occurs |
| Fold.OccursAtBoundary | crates/application-search/src/fold.rs:75-77 | At a boundary the bytes match exactly when the scalars do |
| Fold.BytesMatchAtBoundary | crates/application-search/src/fold.rs:75-90 | A byte match always starts at a boundary, so the search never slices inside a scalar |
| Fold.MapsToCover | crates/application-search/src/fold.rs:95-103 | A folded window maps back to the bytes of the scalars it came from |
| Fold.CoverContainsMatch | crates/application-search/src/fold.rs:92-103 | The reported scalars fold to text that contains the needle |
| Fold.CoverIsSmallest | crates/application-search/src/fold.rs:92-103 | Every range of whole scalars whose fold covers the match covers the reported span |
| Fold.Excerpt | crates/application-search/src/fold.rs:108-128 | The excerpt is whole scalars, contains the span, reaches half the limit beyond it on either side up to rounding to whole scalars or to the end of the text, and is marked exactly where text is missing |
| MatchExpr.ReadsBackTerms | crates/application-search/src/service.rs:591-600 | For every query the reader of quoted strings recovers exactly the query's terms |
| MatchExpr.ExpressionsAreDistinct | crates/application-search/src/service.rs:591-600 | Two queries have the same expression if and only if they have the same terms |
| MatchExpr.ReadQuoted | crates/application-search/src/service.rs:596-597 | No character of a term ends its string early |
| MatchExpr.TermsSplit | crates/application-search/src/service.rs:593-594 | Whitespace separates terms and belongs to none |
| MatchExpr.TermsOfWord | crates/application-search/src/service.rs:593-594 | Text without whitespace is a single term |
| Poller.ProjectPoller.PollOnce | crates/application-sync/src/poller.rs:163-278 | A pass over all boards computes the specified task table and watermarks with an index of every candidate that carries an item id, the last one of an id winning, and stamps the tasks of fully observed boards; a failed local listing changes nothing |
| Poller.IndexHoldsTheLast | crates/application-sync/src/poller.rs:587-607 | An item id is indexed if and only if some candidate carries it, with the copy of the last such candidate |
| PollDelivery.PollIsTheEvent | crates/application-sync/src/poller.rs:163-278 | A pass of the poller over a listing of its own projects and candidates is the poll event of the delivery histories |
| Poller.ProjectPoller.StampFresh | crates/application-sync/src/poller.rs:292-323 | Exactly the listed tasks whose workspace resolves to a fully observed board, and whose write succeeds, carry a new stamp; the workspaces are looked up one after the other, each once |
| Poller.ProjectPoller.PollBoard | crates/application-sync/src/poller.rs:187-278 | One board: a failed page changes nothing, a truncated one no watermark, only items past the watermark are reconciled |
| Poller.ProjectPoller.ReconcileItem | crates/application-sync/src/poller.rs:355-465 | At most sync state, priority and cached status of the one correlated row change, per fault pattern |
| Poller.ProjectPoller.DetectDrift | crates/application-sync/src/poller.rs:372-426 | A Synced row is marked exactly when title, body or open bit left its baseline |
| Poller.ProjectPoller.ReconcilePriority | crates/application-sync/src/poller.rs:507-555 | The priority changes exactly when the board asserts another mapped option and no push is pending |
| Poller.ProjectPoller.CacheStatus | crates/application-sync/src/poller.rs:430-465 | The cached status changes exactly when it differs and the write succeeds |
| Poller.ProjectPoller.MarkRemoteDirty | crates/infra-sqlite/src/task_repo.rs:556-573 | Only a Synced row is marked |
| Poller.WatermarkIsNewest | crates/application-sync/src/poller.rs:229-277 | Over any history of pages the watermark is the later of the epoch and one second before the newest item on a complete page |
| Poller.PassMovesWatermarks | crates/application-sync/src/poller.rs:187-278 | A pass moves each board's watermark by that board's own pages |
| Poller.WatermarkAdd | crates/application-sync/src/poller.rs:261-273 | A watermark never regresses, over any further history |
| Poller.PassKeeps | crates/application-sync/src/poller.rs:17-51 | However stale the pass's index and whichever calls fail, title, body, lifecycle, assignees and baseline stay, and sync state moves at most from Synced to DirtyRemote |
| PollDelivery.EveryCompletePageDelivers | crates/application-sync/src/poller.rs:163-277 | Over any history of board changes and removals, passes over several boards with failed, truncated and complete pages, restarts and other writers: after every pass each tracked task on a fully observed board shows that board's status, given that a board's change stamps step back by less than a second, no item is on two boards, the candidate list of each pass holds the tracked tasks, status writes succeed, and nobody else writes a tracked task's cached status or item id |
| PollDelivery.EveryHistoryKeeps | crates/application-sync/src/poller.rs:163-277 | Over every such history a tracked task shows its board's status or its item is due on the next poll of that board |
| PollDelivery.ListedIsWorkingSet | crates/application-sync/src/poller.rs:587-607 | A candidate list that holds the tracked tasks gives an index that correlates each of them by its item id |
| PollDelivery.PassDelivers | crates/application-sync/src/poller.rs:163-277 | One pass over several boards with one index: nothing shown is lost, nothing due is skipped, and each fully observed board is shown |
| PollDelivery.DeliversExactlyWhen | crates/application-sync/src/poller.rs:231-246 | After any page, repeated entries included, a listed task shows its last entry if and only if that entry is past the watermark or the earlier ones left it there |
| PollRows.PageOnRows | crates/application-sync/src/poller.rs:231-246 | Any page, repeated entries included, changes each listed row by its own entries alone and keeps index and table in agreement |
| PollRows.StatusAfterPage | crates/application-sync/src/poller.rs:430-465 | The cached status after a page is that of the task's last entry past the watermark |
| PollRepeats.SecondPassIsIdleExactlyWhen | crates/application-sync/src/poller.rs:355-465 | After an undisturbed pass, a second pass over the unchanged board issues no write if and only if no push that held back a board priority was released in between |
| PollRepeats.ReleasedPushIsOverwritten | crates/application-sync/src/poller.rs:507-555 | A push pending in the first pass and gone before the second, without reaching the board, lets the unchanged board overwrite the local priority |
| PollRepeats.PageIsIdleExactlyWhen | crates/application-sync/src/poller.rs:355-465 | Any page issues no write if and only if none of its due entries disagrees with its row as it stands |
| PollRepeats.DisagreeingPageNeverSettles | crates/application-sync/src/poller.rs:430-465 | A page that lists one item with two statuses is written twice on every pass |
| PollRepeats.ProjectedPriorityStays | crates/application-sync/src/enqueue.rs:160-172 | A pass over boards that show what a task pushed never changes its priority, however many priorities share the option, however often the item is listed and whichever calls fail |
| PollRepeats.PriorityConvergesExactlyWhenMapped | crates/application-sync/src/poller.rs:507-555 | After an undisturbed poll the local priority projects to the board's option if and only if the option is mapped |
| PollRepeats.MappedBack | crates/domain-project/src/project.rs:199-216 | With one row per priority, looking an option up and projecting the result gives the option back |
| Poller.LookupsTakeTheFirst | crates/domain-project/src/project.rs:199-216 | In a mapping with repeated priorities or options both lookups answer with the first matching row |
| Poller.LookupsMissExactlyWhen | crates/domain-project/src/project.rs:199-216 | A lookup answers none if and only if no row matches |
| PollRepeats.PriorityMutationMeans | crates/application-sync/src/enqueue.rs:160-172 | The pushed write names the task's item, the board's priority field and the option of the first row for its priority |
| PollRepeats.PollAfterPushMarksExactlyDrift | crates/application-sync/src/poller.rs:382-426 | Polling after a push marks the task if and only if the remote had drifted in a field the push did not send |
| GracePrune.CountersAreRunsOfMisses | crates/app-daemon/src/daemon.rs:455-521 | Over every run of successful ticks a counter is the key's current run of misses since its last unlink, a key is unlinked exactly when that run reaches the threshold, and no other key has a counter |
| GracePrune.CountersArePhases | crates/app-daemon/src/daemon.rs:455-521 | A counter is the key's current run of misses counted round at the threshold, and the key is unlinked exactly when the count comes round |
| GracePrune.CountersOverAnyTicks | crates/app-daemon/src/daemon.rs:182-270 | Over every run of ticks, failed ones included, a counter is the number of misses seen since the key was last seen present, unlinked or collected, and a key is unlinked exactly when a tick misses it, the unlink works and that number reaches the threshold |
| GracePrune.AnyTickByKey | crates/app-daemon/src/daemon.rs:455-521 | One tick, successful or not, for every key |
| GracePrune.TickByKey | crates/app-daemon/src/daemon.rs:455-521 | One successful tick, for every key |
| GracePrune.OnePass | crates/app-daemon/src/daemon.rs:190-236 | Counters of one workspace survive the passes over the others |
| GracePrune.Daemon.constructor | crates/app-daemon/src/daemon.rs:163-166 | A threshold below one is one |
| GracePrune.Daemon.ProbeWorktree | crates/app-daemon/src/daemon.rs:474-516 | Counter, valid set, unlink log and error of one worktree |
| GracePrune.Daemon.ApplyGracePrune | crates/app-daemon/src/daemon.rs:455-521 | The nested loops are one pass over the workspace's worktrees and stop at the first error |
| GracePrune.Daemon.TickOnce | crates/app-daemon/src/daemon.rs:182-270 | A tick folds the workspaces up to the first that fails and collects stale counters once if none does; a failed listing, reconcile step, probe or unlink keeps the counters; without prune nothing changes |
| Mirror.MirrorLink.ApplyUpdateRemote | crates/application-sync/src/drainer.rs:447-531 | Diff, patch, read-back, confirm and save together are a field-wise three-way merge of local, baseline and remote, for every answer and save outcome; a sent status leaves the issue open with reason reopened or none, or closed with reason completed or not planned by the lifecycle, an unsent one its old reason |
| Mirror.StampedIsQuiet | crates/application-sync/src/drainer.rs:454-484 | After a confirmed push the baseline mirrors local, the task is Synced and a second drain sends nothing |
| Mirror.LaterEditsAreSent | crates/domain-task/src/task.rs:918-940 | A later edit yields a patch of exactly the fields it changed, and DirtyLocal exactly when there is one |
| Mirror.ConfirmedPartLeavesTheRest | crates/domain-task/src/task.rs:359-432 | Confirming any part of the diff leaves exactly the rest dirty |
| Mirror.ConfirmAcceptsExactlyWhen | crates/domain-task/src/task.rs:359-432 | A confirmation is accepted if and only if there is a baseline and the task is staged, dirty, or in conflict with every field confirmed; the new baseline takes the confirmed fields and keeps the others |
| Mirror.ReconcileDirtyByState | crates/domain-task/src/task.rs:896-907 | An edit leaves a synced or dirty task Synced exactly when it mirrors the baseline and DirtyLocal otherwise, turns a DirtyRemote one that no longer does into a conflict, and no other state changes |
| Mirror.AssigneesEqualMeans | crates/domain-task/src/task.rs:1027-1038 | Assignee lists are compared by length and as sets |
| Mirror.ReplaysMergeOnce | crates/application-sync/src/drainer.rs:447-531 | Any sequence of refused, lost, unsaved, mismatched and repeated pushes ends as one push: the first answer that confirms it or flags a conflict settles row and remote, and until then the row is untouched and the remote merged at most once |
| MirrorRuns.SyncedCanBeTrusted | crates/application-sync/src/drainer.rs:447-531 | Over every history of edits and pushes, refused, lost, unsaved and conflicting ones included, in which no edit reverts a field of a lost push: whenever the task is Synced the remote shows the local content |
| MirrorRuns.SyncedHoldsExactlyWhen | crates/application-sync/src/drainer.rs:447-531 | Over every history of edits and pushes, reverts included, a Synced task is what the remote shows if and only if for every field the last push that reached the remote with it was confirmed or did not visibly move it |
| MirrorSystem.SyncedHoldsExactlyWhen | crates/application-sync/src/service.rs:510-630 | Over every story of local edits, failed and lost pushes, edits of the remote by others, polls and pulls, a Synced task is what the remote shows if and only if no field was last moved off the baseline without a later confirmation or pull |
| MirrorSystem.PolledSyncedIsRightButForAssignees | crates/application-sync/src/poller.rs:37-51 | Right after a poll a task that is still Synced is what the remote shows if and only if its assignees are not adrift |
| MirrorSystem.PullConverges | crates/application-sync/src/service.rs:510-630 | Right after a pull of a task that is not archived nothing is adrift: it is Synced and shown, or a local proposal against an unmoved remote |
| MirrorSystem.PullTakesExactlyWhen | crates/application-sync/src/service.rs:510-630 | A pull overwrites a task that is not archived exactly when the remote moved off its baseline, the task is DirtyRemote or in conflict, or it is DirtyLocal and the pull is forced |
| MirrorSystem.PolledIsTheDriftTest | crates/application-sync/src/poller.rs:382-426 | The story's poll is the poller's own drift test |
| MirrorRuns.EditMisleadsExactlyWhen | crates/domain-task/src/task.rs:896-907 | An edit leaves the task Synced over a remote that does not show it if and only if it takes every field back to the baseline while the remote is no longer there |
| MirrorRuns.DrainKeepsTrust | crates/application-sync/src/drainer.rs:447-531 | Every outcome of a push keeps the guarantee |
| MirrorRuns.CleanHistoriesNeedNoCare | crates/application-sync/src/drainer.rs:447-531 | If no push is lost after landing, the guarantee holds over every history of edits, reverts included |
| MirrorRuns.LostPushThenRevert | crates/domain-task/src/task.rs:896-907 | A concrete history that ends Synced over a remote with another title, which a further drain does not repair |
| Mirror.ConflictsExactlyWhen | crates/application-sync/src/drainer.rs:503-519 | A push conflicts if and only if it sends assignees and the answer is another sequence |
| Mirror.ReorderedAnswerConflicts | crates/application-sync/src/drainer.rs:510-512 | An answer with the same assignees in another order conflicts |
| Mirror.MirroredExactlyWhenNoDrift | crates/application-sync/src/lib.rs:125-137 | After a push the remote mirrors the new baseline if and only if it mirrored the old one in every unsent field |
| Mirror.DrainCanHideRemoteDrift | crates/application-sync/src/drainer.rs:476-484 | A drained DirtyRemote task can be Synced while the remote differs |
| Mirror.PushThenPullIsQuiet | crates/application-sync/src/lib.rs:96-107 | Without remote drift the pull after a push supersedes no field |
| Mirror.Pulled | crates/application-sync/src/lib.rs:96-107 | A pulled lifecycle agrees with the remote's open bit and keeps its variant unless the bit flipped |
| Mirror.MirrorLink.CopyInboundMirror | crates/application-sync/src/lib.rs:189-200 | Only the local content changes, to the pulled content |
| Mirror.MirrorLink.SupersededInboundFields | crates/application-sync/src/lib.rs:149-172 | Exactly the fields a pull would change; none exactly when local already mirrors the result |

## Left out

- Outbox: `last_error`, `updated_at` and the JSON payload of a mutation; they steer nothing the model states.
- Concurrent edits of the task an entry is being applied to: the code does not protect its whole-row save against them, so an apply is atomic towards edits of its own task.
- Board, repository and issue-type lookups of the drainer: their outcome is part of a port's answer, so which option or type id is chosen is not modelled.
- Drainer.OutboxDrainer.ApplyOther: the field-write and relation arms are one call with an answer; what the remote does with it is not modelled. The content push is modelled in `Mirror`.
- ReadyTree.ReverseParentIndex: task ids are numbers, so id order is numeric instead of the order of printed UUIDs.
- Chunks.ChunkFormatted: SHA-256 content hashes, and the loop that labels core and comment chunks.
- Fold.FindLiteralSpans: the Unicode fold table; every function from a scalar to a string is allowed instead.
- Search ranking, embeddings, full-text scoring and sidecar storage.
- Poller.ProjectPoller.PollOnce: the report counters.
- PollDelivery.EveryCompletePageDelivers: tasks outside the capped working set or with failing status writes can stay stale, because the watermark passes their items; `PollDelivery.DeliversExactlyWhen` says when.
- GracePrune.CountersOverAnyTicks: a tick that lists the same worktree twice; keys are distinct within a tick.
- MirrorSystem: a pull that fails half-way, comments, relations and the forced push.
- Mirror: snapshot versions, sources and capture times of a baseline.
- Command-line interface, logging, heartbeat file, process signals, task spawning, SQLite and GitHub adapters beyond the row operations above, project linking and the issue-type registry: plumbing without a hard property.
