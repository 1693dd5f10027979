# The task center's protocols, modelled and proved

Orbit-control's task center is built from a handful of small protocols whose guarantees are about whole runs, not about one call:
an outbox that is projected into a per-task log and into rows, an event stream that heals itself from that log, an idempotency
ledger that many replicas share, SOP graphs, expert bundles that are written and read back, a consistent-hash ring, and a catalog
search that exists once in SQL and once in memory. This project models them in Dafny and proves what they promise.

Each module models one part of the source. Code that changes state is a class or a method with the source's loops, proved equal to
a function of the old state; what the source promises is then proved about those functions and about runs of a state machine.
What an operation leaves is stated a second time in the source's own columns, fields and constants, without the functions the
methods are proved equal to, and mostly over whole runs: which event wrote each row, which answer each caller got, which sums each
account shows (`AttemptRows.EveryRowWasWritten`, `NodeRows.RowShowsItsWriters`, `Projector.RowsAreLoggedAsWritten`,
`CommandRuns.AnswersAreTheWorkflows`, `TaskStore.GrantsAndUsageAreConserved` and others).

| module | what it models |
|---|---|
| `Common`, `Strings` | options, filters, trimming, decimal numerals, substring search |
| `Events`, `EventLog` | task events as the projector decodes them, and the log of one store |
| `NodeRows`, `AttemptRows`, `Approvals`, `Accumulators` | the projections of an event: node rows, attempt rows, pending approvals, usage and budgets |
| `TaskStore` | the transaction that stores an event and applies it to all projections |
| `Service` | the service's own side of an append: duplicates, entity versions, buffer |
| `Projector` | outbox, claim, append, mark, as a state machine and as the methods that run it |
| `EndToEnd` | the projector over the whole store: log and projections in one transaction |
| `Replay`, `Stream`, `Subscribers` | the merge of durable and ephemeral events, one client's stream, the bounded live channels |
| `CommandLedger`, `CommandRuns` | the SQL ledger statement by statement, the memory ledger, and `UpdateChecked` run by many replicas |
| `SopSteps`, `SopGraph`, `Sop` | normal form, Kahn's algorithm, validation and registration of SOPs |
| `BundleFiles`, `BundleSkills`, `BundleServers`, `Bundle` | the files of an expert bundle, `skills.json`, `mcp.json`, rendering and deriving |
| `Ring` | the consistent-hash ring, for an arbitrary hash function |
| `LikeSearch` | LIKE patterns and the two catalog searches |

`dafny verify dfyconfig.toml` checks everything.

## What the code does not guarantee

Where a promise fails, the code is modelled as it is, and a lemma says exactly when the promise holds.

- A failed append undoes the seen mark but not the entity version (internal/task/events.go:104 and 121-124). A retry in the same
  process reaches the store if and only if the event moves no entity version (`Service.RetryAfterFailure`), so exactly-once needs
  a failed append to end the process; without that a row is marked although its event is lost (`Projector.RetryLosesTheEvent`).
  Every step this condition excludes leaves such a row (`Projector.UnsafeForgoes`), lost unless the process ends before it is marked.
- A publishable row that the log table cannot hold (its event id lacks the prefix, or its task has events of another tenant) is
  not dropped at its first append, although the comment at internal/task/projector.go:38-39 says such rows are: the append fails
  and the batch is abandoned. What follows depends on the row. One without an entity version stalls the projector for good: no row
  from it on is ever marked (`Projector.AStuckRowStopsTheProjector`, with `Projector.OneBadRowIsEnough` as an example). A versioned
  one stalls it only while each failed append ends the process. `Projector.Run` survives a failed batch
  (internal/task/projector.go:49-66), and then the next turn of the row passes it without a word: it is marked, and its event never
  reaches the log (`Projector.RetryPassesExactly`, `Projector.SurvivedFailureLosesTheRow`, `Projector.VersionedBadRowIsLost`).
  `Projector.PassesExactly` says of every state whether a turn passes its row.
- The buffer trim keys on a number that every ephemeral event has as 0, so it drops all of them or none. It drops them exactly
  when too many items are recent and no ephemeral event is among the last ones (`Replay.TrimDropsExactly`); the bounds on size and
  age it was written for do not hold (`Replay.EphemeralAloneIsNeverTrimmed`, `Replay.BoundsFail`).
- An event without an entity version writes version 0 over a node row, and an older versioned event is then applied again
  (`NodeRows.VersionFalls`, `NodeRows.UnversionedEventLetsOldOnesIn`).
- A resume that arrives before its park is lost (`AttemptRows.EarlyResumeIsLost`). The comment at
  internal/store/pgstore/task_structure.go:286-289 says that a finish clears the resumed key; the code at lines 319-329 does not.
  The model follows the code, and the key decides nothing in any reachable state (`AttemptRows.ResumedKeyDecidesNothing`).
- The two views of approvals part in three ways: a payload that decodes as a map but not as the typed struct, a request for an
  approval that was decided before, and a decision that names another task of the tenant (`Approvals.ViewsCanSplit`).
  `Approvals.RequestSplits` and `Approvals.DecisionSplits` say for every event and every task when they stay together.
- The two ledgers differ exactly when a held command is claimed at the instant its lease runs out (`CommandLedger.CallsAgree`).
- A form with blanks around an SOP id that stands in for the name is not `SameSOP` as its validated form (`Sop.StoredFormIsSame`).
- Skill directories load in path order, not in name order as the comment at internal/app/bundle.go:490-492 says
  (`BundleFiles.PathOrderIsNotNameOrder`).
- A catalog skill named like a listed bundle skill renders into a `skills.json` that cannot be read back, and saving the form again
  changes the bundle (`Bundle.SharedNameIsNoFixedPoint`). `Bundle.DerivesExactly` says when a rendered bundle derives, and
  `Bundle.FixedPointExactly` when saving again changes nothing; a save is refused before that, because it derives first.

## Model

| member | source | states |
|---|---|---|
| EventLog.AppendKeeps | internal/store/pgstore/task_events.go:18-73 | an append keeps every task's numbers 1, 2, 3, ... and event ids unique, and changes the log only by adding one row at its end |
| EventLog.AppendTwice | internal/store/pgstore/task_events.go:30-37 | appending a stored event again finds it, answers with the number it has, and changes nothing |
| EventLog.TaskEvents.FindStored | internal/store/pgstore/task_events.go:30-37 | the duplicate check finds an event id of the tenant exactly when the log holds it |
| EventLog.TaskEvents.Head | internal/store/pgstore/task_events.go:38-42 | the next number is one more than the greatest number of the tenant's task |
| EventLog.TaskEvents.AppendTaskEvent | internal/store/pgstore/task_events.go:18-73 | the outcome (skipped, malformed, duplicate, refused, stored) and the new log, for every event; the log stays well numbered |
| EventLog.TaskEvents.ListTaskEvents | internal/store/pgstore/task_projection.go:244-268 | reading after a cursor gives exactly the later events of the tenant's own task, numbered from the cursor on without a gap, and its head; of another tenant's task nothing |
| EventLog.RefusedExactly | internal/store/migrations/sql/00013_task_runtime.sql:172-182 | a well-formed event with a new id is refused exactly when its id lacks the prefix or its task has events of another tenant |
| EventLog.AppendSays | internal/store/pgstore/task_events.go:18-73 | for every event and every log the outcome and the new log, told from the log alone: skipped, malformed, the number again, the task's next event, or refused |
| NodeRows.NodeTable.ProjectNodeStatus | internal/store/pgstore/task_structure.go:123-211 | conditional update, else insert: the new table for every event, newer or not |
| NodeRows.LastWriterWins | internal/store/pgstore/task_structure.go:119-122 | whatever the order and repetition of a node's versioned events, its row shows the event of the highest version |
| NodeRows.OrderDoesNotMatter | internal/store/pgstore/task_structure.go:119-122 | two runs over the same events of a node end with the same status, reason and version |
| NodeRows.NeverBlanked | internal/store/pgstore/task_structure.go:119-122 | an optional fact once known is never blanked by any sequence of events |
| NodeRows.VersionFalls | internal/store/pgstore/task_structure.go:201-206 | a row's version falls exactly when an unversioned event that is not older is applied to a versioned row |
| NodeRows.UnversionedEventLetsOldOnesIn | internal/store/pgstore/task_structure.go:201-206 | a concrete run in which a stale event overwrites a newer one after an unversioned event |
| NodeRows.RowShowsItsWriters | internal/store/pgstore/task_structure.go:119-211 | in every run a row's status, reason, version and time are those of the last event that wrote it, and each optional column is what the last of them to name it says |
| AttemptRows.AttemptTable.InsertAttempt | internal/store/pgstore/task_structure.go:215-249 | what attempt.started does to the table |
| AttemptRows.AttemptTable.ResumeAttempt | internal/store/pgstore/task_structure.go:362-377 | what attempt.resumed does to the table, under its conditions on status, time and resumed key |
| AttemptRows.AttemptTable.ProjectAttemptEvent | internal/store/pgstore/task_structure.go:289-356 | what a park, a resume or a finish does, with the late creation of a row whose start was missed |
| AttemptRows.RunIsSound | internal/store/pgstore/task_structure.go:307-315 | in every reachable state a parked row has the resumed key (0, 0) and the time of its park |
| AttemptRows.TerminalIsFinal | internal/store/pgstore/task_structure.go:269-284 | a terminal attempt row never changes again, whatever is projected or closed later |
| AttemptRows.ParkedRowsWereParked | internal/store/pgstore/task_structure.go:307-315 | every parked row was parked by an applied park, with no resume applied since, and carries its time |
| AttemptRows.ResumesAnswerParks | internal/store/pgstore/task_structure.go:358-377 | every applied resume has its own earlier applied park, which is not newer than the resume |
| AttemptRows.ResumedKeyDecidesNothing | internal/store/pgstore/task_structure.go:358-377 | in reachable states a resume applies exactly when its attempt is parked and the event is not older than the park |
| AttemptRows.EarlyResumeIsLost | internal/store/pgstore/task_structure.go:358-377 | a park and its resume in the wrong order leave the attempt parked, in the right order running |
| AttemptRows.EveryRowWasWritten | internal/store/pgstore/task_structure.go:215-377 | every row of every run was written by one step as that step says: accepted by a finish "completed", rejected by "failed", aborted by "cancelled" or a close, parked by its reason, running by a start or a resume, with the values of the event, late rows included |
| AttemptRows.FinishMoves | internal/store/pgstore/task_structure.go:316-336 | a finish changes a row only if the row is open and the outcome one of the three, and then leaves that status, time, version, failure and usage |
| AttemptRows.FinishCreates | internal/store/pgstore/task_structure.go:337-356 | a finish of a missing attempt creates its row if and only if it names a free number of a node and a profile |
| AttemptRows.StartCreates | internal/store/pgstore/task_structure.go:215-256 | a start creates a row if and only if the attempt is new and its number of the node is free |
| AttemptRows.ParkMoves | internal/store/pgstore/task_structure.go:307-315 | a park parks a row if and only if the row is open and the reason is "approval" or "input" |
| AttemptRows.ResumeMoves | internal/store/pgstore/task_structure.go:358-377 | in every run a resume makes a row running if and only if the row is parked and not later than the event |
| AttemptRows.NumbersAreUnique | internal/store/pgstore/task_structure.go:251-256 | no two attempts of a task share a number of a node, in any run |
| Approvals.RemoveString | internal/store/pgstore/task_events.go:236-244 | filtering a slice in place over its own front keeps every other item in order |
| Approvals.ApprovalBoard.InsertApproval | internal/store/pgstore/task_approvals.go:41-63 | a request inserts a pending row unless the approval has one |
| Approvals.ApprovalBoard.DecideApproval | internal/store/pgstore/task_approvals.go:68-88 | a decision moves the row when its version is newer, or without a version when the row is pending |
| Approvals.ApprovalBoard.UpdatePending | internal/store/pgstore/task_events.go:175-206 | what a request or a decision does to the pending list of the task, if the task has a row |
| Approvals.ApprovalBoard.Project | internal/store/pgstore/task_events.go:115-124 | row and list change together |
| Approvals.ViewsAgree | internal/store/pgstore/task_approvals.go:41-88 | under any order of orderly events the pending rows are exactly the pending list, which has no duplicates |
| Approvals.RequestSplits | internal/store/pgstore/task_approvals.go:41-63 | for every request and every task: it keeps the two views together if and only if it names another task, or no approval id, or an approval pending in this task, or a new one with a typed payload |
| Approvals.DecisionSplits | internal/store/pgstore/task_approvals.go:68-88 | for every decision and every task: it keeps the two views together if and only if it is none, or its approval is not pending there, or the row moves exactly when the decision names this task |
| Approvals.ViewsCanSplit | internal/store/pgstore/task_events.go:196-206 | concrete events that split the views: a payload of a wrong type, a second request after the decision, a decision that names another task |
| Approvals.EveryRowWasWritten | internal/store/pgstore/task_approvals.go:41-88 | in every run a pending row was written by its request and any other by a decision of its status, with tenant, task and version |
| Approvals.WritesExactly | internal/store/pgstore/task_approvals.go:41-88 | an event that may write a row leaves exactly what it says |
| Approvals.ListShowsWhatIsOpen | internal/store/pgstore/task_events.go:195-206 | over every run the list of a task is what was requested there and not decided since, in the order of the requests |
| Accumulators.AddJsonNumbers | internal/store/pgstore/task_events.go:246-270 | the loop over a delta, in any order of its keys, adds numbers, skips nulls and lets other values replace |
| Accumulators.AddedSums | internal/store/pgstore/task_events.go:246-270 | adding a delta gives the sum of a key if and only if no text replaces a number there |
| Accumulators.Conservation | internal/store/pgstore/task_events.go:207-214 | each key is its initial amount plus the sum of its deltas over the events |
| Accumulators.OrderDoesNotMatter | internal/store/pgstore/task_events.go:207-214 | the amounts are the same for every order of the same events |
| Accumulators.FoldShows | internal/store/pgstore/task_events.go:207-214 | key by key, with texts and nulls: budgets move by grants only, usage by usage records only |
| Accumulators.TotalsAreTheSums | internal/store/pgstore/task_events.go:207-214 | the sums of the two kinds are the numbers of the grants, and those of the usage records |
| TaskStore.Database.ApplyEvent | internal/store/pgstore/task_events.go:82-129 | dispatch by type: the event changes its own projection and no other |
| TaskStore.Database.UpdateAmounts | internal/store/pgstore/task_events.go:207-214 | budgets and usage after an event, for a task that has a row |
| TaskStore.Database.AppendTaskEvent | internal/store/pgstore/task_events.go:26-68 | log and projections change together, or neither does |
| TaskStore.ProjectionsAreAFold | internal/store/pgstore/task_events.go:55-58 | after any deliveries, in any order and repeated, the projections are the fold of the log, in which every event stands once |
| TaskStore.FoldAttempts | internal/store/pgstore/task_events.go:107-110 | the attempt rows are those of a run of the attempt machine over the log |
| TaskStore.AmountsAreConserved | internal/store/pgstore/task_events.go:174-225 | after any run with redeliveries each amount is its initial value plus the deltas of the distinct logged events |
| TaskStore.ApprovalViewsAgree | internal/store/pgstore/task_events.go:115-124 | after any run of orderly deliveries, in any order and repeated, the pending rows of a task are exactly its pending list, each once |
| TaskStore.NodesShowTheNewest | internal/store/pgstore/task_events.go:105-106 | after any run of versioned deliveries, in any order and repeated, a node's row shows the stored event of the highest version, and is there if and only if there is one |
| TaskStore.OrderlyLog | internal/store/pgstore/task_events.go:30-37 | redeliveries of one request are stored once, so orderly deliveries leave an orderly log |
| TaskStore.GrantsAndUsageAreConserved | internal/store/pgstore/task_events.go:174-225 | after any run with redeliveries a task's budget is its initial value plus what the logged events grant, and its usage plus what they record; a grant leaves usage alone and the other way round |
| Service.TaskService.Admit | internal/task/events.go:84-107 | the duplicate check and the version check, in that order, and what each leaves in memory |
| Service.TaskService.StoreDurable | internal/task/events.go:108-134 | number guess, store call, what each answer of the store does to the memory |
| Service.TaskService.AppendEvent | internal/task/events.go:75-219 | memory, log and answer of an append, for every event and every failure before or after the commit |
| Service.AppendKeepsOrder | internal/task/events.go:108-113 | every append keeps a task's ephemeral events in the order of the durable events they follow |
| Service.RetryAfterFailure | internal/task/events.go:93-125 | a retry after a failed append reaches the log if and only if the event moves no entity version |
| Service.NumberDoesNotMatter | internal/task/events.go:108-110 | the number a process guessed plays no part in what the store does |
| Service.TaskService.Project | internal/task/events.go:118-120 | the store is asked, and may fail before or after it commits |
| Service.BuffersStayInOrder | internal/task/events.go:75-219 | from the start of a process on, every run of appends, failures and evictions keeps the ephemeral events of every task in order |
| Service.ReplayKeepsBufferOrder | internal/task/events.go:53-68 | in every run a replay shows the ephemeral events in the order in which they came |
| Service.LogOfAppend | internal/task/events.go:84-125 | an append changes the log as the store does, unless it is dropped in memory or fails before the commit |
| Service.MemoryTells | internal/task/events.go:84-107 | what a process has seen and the highest version of each entity, told from the calls it answered |
| Service.AppendSays | internal/task/events.go:75-193 | an append at any point of a process: what is dropped, what the log gets, what is buffered under which number, and the answer |
| Service.NumbersAreKnown | internal/task/events.go:108-138 | in every run a newly buffered ephemeral event follows every durable one of its task in the buffer |
| Projector.RuntimeOutbox.ClaimRuntimeOutbox | internal/store/pgstore/runtime_outbox.go:65-103 | the claimed batch is the first rows that are not marked, at most the limit |
| Projector.OutboxProjector.ProjectRow | internal/task/projector.go:115-163 | one claimed row is appended or dropped as the next step of the machine, and the batch is abandoned if and only if the store answers with an error |
| Projector.OutboxProjector.ProjectRows | internal/task/projector.go:115-164 | the loop over the batch, with other writers between its steps; it stops only at a turn that failed |
| Projector.OutboxProjector.MarkRows | internal/task/projector.go:165 | marking the batch, with an answer that may be lost |
| Projector.OutboxProjector.Project | internal/task/projector.go:106-166 | a pass is a run of the machine; it fails only when the claim, an append or the mark does; one that succeeds has marked all it claimed, and none marks more |
| Projector.AttemptKeepsLog | internal/task/projector.go:157-163 | an append of a claimed row keeps the log's invariant, and a row answered without an error is settled |
| Projector.StepKeeps | internal/task/projector.go:106-166 | every safe step (new row, other writer, own append, claim, append, mark, eviction, crash) keeps the invariant |
| Projector.ExactlyOnce | internal/task/projector.go:106-166 | over every safe run each task's log is numbered 1..n and holds the outbox events of the first rows once each in outbox order, and every marked row has its event in the log unless it is ephemeral or malformed |
| Projector.NothingIsLeftOut | internal/task/projector.go:106-166 | when every row is marked the log holds all publishable events of the outbox in order |
| Projector.RetryLosesTheEvent | internal/task/projector.go:157-160 | a run without the condition on failures: a versioned row is marked and its event never reaches the log |
| Projector.PassesExactly | internal/task/projector.go:157-164 | in every state, when nothing fails on the way, a turn passes its row if and only if the row is no event, the memory drops it, or its event is ephemeral, malformed, found in the log or one the log table can hold |
| Projector.RetryPassesExactly | internal/task/projector.go:49-66 | a row the log table cannot hold, whose failure the process survives, is passed when it is claimed again if and only if it is versioned |
| Projector.UnsafeForgoes | internal/task/events.go:93-125 | every step that a safe run excludes leaves a row whose event the memory drops and the log does not have |
| Projector.SurvivedFailureLosesTheRow | internal/task/projector.go:49-66 | after the first such step, as long as the process lives, the log never gets the event and every later turn of the row passes it |
| Projector.VersionedBadRowIsLost | internal/task/projector.go:157-164 | a concrete versioned row that the table cannot hold: the process that survives its failure marks it without its event |
| Projector.OwnKeeps | internal/task/events.go:70-134 | an append the same process makes of its own keeps the invariant, memory included |
| Projector.AStuckRowStopsTheProjector | internal/task/projector.go:38-39 | a publishable row the log table cannot hold, without a version or with every failed append ending the process: in every continuation no row from it on is marked or in the log |
| Projector.OneBadRowIsEnough | internal/task/projector.go:38-39 | a concrete unversioned first row without the id prefix after which no row is ever marked |
| Projector.RowsAreLoggedAsWritten | internal/task/projector.go:106-166 | after every safe run each marked row that must be logged has an entry with the row's own tenant, task and id and what its body says, no other entry has the id, and the entries are those of the first rows in outbox order |
| Projector.NoRowIsLeftOut | internal/task/projector.go:106-166 | when every row is marked, each task's log has the ids of all rows that must be logged, in order |
| Projector.ClaimTakesTheFirst | internal/store/pgstore/runtime_outbox.go:65-103 | a claim takes unmarked rows in order, at most the limit, and passes over an unmarked one only beyond it |
| Replay.WithLiveEvents | internal/task/events.go:53-68 | append and stable sort give the merge of the replay and the kept ephemeral events |
| Replay.SortStable | internal/task/events.go:66 | the in-place sort is the stable sort by position |
| Replay.MergeFacts | internal/task/events.go:51-68 | a replay loses and invents nothing, keeps the log's order and the buffer's, and places each ephemeral event after the durable event it followed |
| Replay.Placement | internal/task/events.go:60-66 | an ephemeral event stands behind a durable one if and only if it came after it |
| Replay.ReplaySplits | internal/task/events.go:53-68 | a replay from a is its part up to durable b followed by a replay from b |
| Replay.FilterSort | internal/task/events.go:66 | filtering and stable sorting commute |
| Replay.TrimBuffer | internal/task/events.go:169-193 | the trim with its loops: the recent items, the numbers of the last ones, and the filter by them |
| Replay.TrimIsAllOrNothing | internal/task/events.go:169-193 | the trim keeps every durable event and the order, and drops all ephemeral events or none |
| Replay.TrimDropsExactly | internal/task/events.go:169-193 | the ephemeral events stay if and only if at most the limit of items is recent or one of the last recent ones is ephemeral |
| Replay.EphemeralAloneIsNeverTrimmed | internal/task/events.go:169-193 | a buffer of ephemeral events alone stays as it is, whatever its size and age |
| Replay.BoundsFail | internal/task/events.go:169-193 | a concrete buffer over the limit with an event older than the cut, which the trim leaves alone |
| Replay.ReplayCounts | internal/task/events.go:53-68 | a replay has every later event of the log and every buffered ephemeral event that came after the cursor, each as often as it is there, and nothing else |
| Replay.RecentSays | internal/task/events.go:169-177 | recent is what is durable or not older than the cut |
| Stream.EventSender.Write | internal/httpapi/task_events.go:119-127 | a duplicate is dropped, a later durable event moves the cursor, an ephemeral one does not |
| Stream.EventSender.CatchUp | internal/httpapi/task_events.go:131-145 | the loop over a read of the log, which a failed write ends |
| Stream.EventSender.Deliver | internal/httpapi/task_events.go:149-154 | a live event with a gap before it causes a read instead of a write |
| Stream.StreamSafety | internal/httpapi/task_events.go:108-154 | for any interleaving of growth, loss, repetition, reordering and failing reads the client gets exactly the log entries after its cursor, in order, once |
| Stream.EphemeralMovesNothing | internal/httpapi/task_events.go:117-127 | an ephemeral event is sent and never moves the cursor |
| Stream.CatchUpReachesTheHead | internal/httpapi/task_events.go:129-145 | a catch-up that is not cut off brings lastSent to the head it read |
| Stream.ReconnectIsSeamless | internal/httpapi/task_events.go:15-26 | a client that reconnects with the last id it saw has no gap and no repetition across both streams |
| Stream.EphemeralOnlyLive | internal/httpapi/task_events.go:129-145 | the ephemeral events a client gets are those delivered live, in order; a read of the log never adds one |
| Stream.GapsAreRead | internal/httpapi/task_events.go:147-154 | a live event behind a gap is not sent past it: a read that holds it brings the client to it, and without a gap it is sent at once |
| Subscribers.FanOut.Subscribe | internal/task/subscribers.go:11-35 | the channel is registered and takes the whole replay without blocking |
| Subscribers.FanOut.Publish | internal/task/events.go:211-216 | each open channel of the task takes the event if it has room, and no other channel changes |
| Subscribers.FanOut.RemoveSubscriber | internal/task/subscribers.go:56-64 | removing closes the channel once |
| Subscribers.RegisteredIsOpen | internal/task/subscribers.go:41-64 | the registry holds exactly the open channels, so no event is sent to a closed one and none is closed twice |
| Subscribers.ReplayThenLive | internal/task/subscribers.go:22-32 | over every run a channel carries its replay, then later events in order, and the first 256 of them are all there however many follow |
| Subscribers.EachIsAlone | internal/task/subscribers.go:11-64 | in every run a channel is what it would be alone: its replay, then every event of its task while it is open and has room |
| CommandLedger.KeysAreInjective | internal/task/command_ledger.go:42-44 | no two commands share a ledger key, as long as tenant and task ids hold no slash |
| CommandLedger.SqlLedger.ClaimCommand | internal/store/pgstore/command_ledger.go:55-90 | the three statements without interleaving |
| CommandLedger.MemoryLedger.ClaimCommand | internal/task/command_ledger.go:72-93 | the memory ledger's claim in one critical section |
| CommandLedger.CallsAgree | internal/task/command_ledger.go:72-117 | one call gets the same answer from both ledgers and keeps them in step if and only if it is not at the lease boundary |
| CommandLedger.MemoryRefinesSql | internal/task/command_ledger.go:72-117 | every sequence of calls off the boundary gets the same answers from both ledgers |
| CommandLedger.KeyReads | internal/task/command_ledger.go:42-44 | a key reads as tenant, task and command |
| CommandRuns.StepKeeps | internal/store/pgstore/command_ledger.go:55-109 | every statement of every replica, with crashes, keeps table, history, workflow and requests consistent |
| CommandRuns.MutualExclusion | internal/store/pgstore/command_ledger.go:55-90 | two granted claims of one command are separated by the holder's release or more than the lease; nothing follows a success; all carry the same request |
| CommandRuns.Replica.Claim | internal/store/pgstore/command_ledger.go:55-90 | the claim with other replicas between its statements is a run of the machine and answers what the machine records |
| CommandRuns.Replica.SendAndComplete | internal/task/commands.go:54-84 | the command is sent, and the call answers with the workflow's body if and only if the workflow gave one and it was stored |
| CommandRuns.Replica.Release | internal/task/commands.go:88-92 | giving a claim up, whether or not that succeeds |
| CommandRuns.Replica.UpdateChecked | internal/task/commands.go:22-92 | the whole call is a run of the machine; a body it returns or replays is the workflow's; a request whose claim is granted fails only when its check, send or completion does |
| CommandRuns.AppliedAtMostOnce | internal/orch/client.go:172-181 | what the workflow applied for a command is the request in its ledger row, answered requests were applied as asked, and no command is applied twice |
| CommandRuns.StoredSuccessIsFinal | internal/task/commands.go:22-66 | a stored success never changes; later requests get its result, or a conflict when they ask for something else |
| CommandRuns.StaysDispossessed | internal/store/pgstore/command_ledger.go:92-109 | a request past its claim whose row has another owner never finds its own owner there again, in any continuation |
| CommandRuns.DispossessedChangesNothing | internal/store/pgstore/command_ledger.go:77-109 | after a takeover by another request, completion and release of the first one change neither a row nor the history, in any continuation |
| CommandRuns.AnswersAreTheWorkflows | internal/task/commands.go:52-66 | a returned body is what the workflow answered to that request's own send; a stored success and every replayed answer is what it answered to a request for the same command |
| SopSteps.DedupeItems | internal/task/sop.go:149-159 | the first occurrence of every item, in order |
| SopSteps.DedupeFacts | internal/task/sop.go:149-159 | no repetitions, the same items, and no change to a list without repetitions |
| SopSteps.NormalizeSopSteps | internal/task/sop.go:115-147 | every default, step by step |
| SopSteps.NormalIdempotent | internal/task/sop.go:113-115 | normalising again changes nothing |
| SopSteps.ImplicitDependency | internal/task/sop.go:128-135 | an implicit dependency names the step before by its normal id |
| SopSteps.NormalIdsUnique | internal/task/sop.go:177-203 | normal ids are unique exactly when the written ones pass their check, so the second check never fires |
| SopSteps.NormalizeArtifacts | internal/task/sop.go:139-143 | a required artifact without a count gets the count 1 |
| SopSteps.NormalSays | internal/task/sop.go:115-147 | field by field: what is written stays, and only what is missing gets its default |
| SopSteps.DedupeOrder | internal/task/sop.go:149-159 | the items come in the order of their first occurrences |
| SopGraph.CountDependencies | internal/task/sop.go:261-268 | the waiting counters and the dependents after the first loop |
| SopGraph.FirstReady | internal/task/sop.go:269-274 | the steps that wait for nothing |
| SopGraph.Tell | internal/task/sop.go:280-285 | counting down the dependents of a finished step |
| SopGraph.OrderMeansAcyclic | internal/task/sop.go:259-288 | a topological order rules out a cycle |
| SopGraph.StuckMeansCycle | internal/task/sop.go:287 | steps that all wait for another one contain a cycle |
| SopGraph.SopHasCycle | internal/task/sop.go:260-288 | Kahn's algorithm terminates; it answers true if and only if there is a cycle, and false if and only if there is a topological order |
| Sop.CheckWrittenIds | internal/task/sop.go:177-195 | the checks of written ids pass exactly when they are valid, unique and take no default id; a refusal names the first problem |
| Sop.IndexIds | internal/task/sop.go:197-203 | the second duplicate check is dead code |
| Sop.CheckSteps | internal/task/sop.go:204-216 | the fields and dependencies of all steps |
| Sop.ValidateSop | internal/task/sop.go:163-222 | accepts exactly the acceptable definitions, which then have a topological order, and refuses as cyclic only for a real cycle |
| Sop.Version1IsAChain | internal/task/sop.go:113-147 | a definition without ids and dependencies is an acyclic chain |
| Sop.StoredFormIsSame | internal/task/sop.go:290-307 | a definition is SameSOP as its validated form if and only if its name is not blank or its id is blank or has no blanks around it |
| Sop.StoredFormIsAccepted | internal/task/sop.go:163-222 | validating a stored form accepts it and changes nothing |
| Sop.Registry.Register | internal/store/pgstore/sop.go:28-58 | insert unless there, then compare: a conflict exactly when the stored definition is another one |
| Sop.CheckDeps | internal/task/sop.go:208-215 | a step's dependencies pass exactly when each is another known step |
| Sop.BlanksAroundTheIdDiffer | internal/task/sop.go:297-301 | an accepted definition that differs from its validated form |
| Sop.SecondRegistrationConflicts | internal/store/pgstore/sop.go:28-58 | a second definition under a version conflicts if and only if, as written, it differs in name, description or normal steps |
| Sop.VersionsAreImmutable | internal/store/pgstore/sop.go:34-50 | no later registrations change a stored version, so registering a definition again is a no-op that conflicts only if it did at once |
| Sop.FitsUnlessDefective | internal/task/sop.go:224-257 | a step fits if and only if no field of it has one of the listed defects |
| Sop.ValidatedSays | internal/task/sop.go:163-222 | an accepted definition keeps its id and description and is stored under its name without blanks, or under its id |
| BundleFiles.SortedPaths | internal/app/bundle.go:51-58 | the keys of a map, in whatever order it gives them, as the one ascending list |
| BundleFiles.SkillsOfFacts | internal/app/bundle.go:189-200 | each skills/<name>/SKILL.md gives its name once, and nothing else does |
| BundleFiles.BundleSkillNames | internal/app/bundle.go:189-200 | the loop over the sorted paths |
| BundleFiles.PathOrderIsNotNameOrder | internal/app/bundle.go:189-200 | path order puts a later name first exactly when the earlier name is its prefix and the next character sorts before a slash |
| BundleFiles.SkillsSay | internal/app/bundle.go:190-200 | the skills of a bundle are the directories of skills/ that hold a SKILL.md |
| BundleSkills.ParseSkills | internal/app/bundle.go:153-182 | accepts exactly the lists whose entries are complete and clash neither by name nor by catalog id |
| BundleSkills.KeepSkills | internal/app/bundle.go:613-623 | what stays of the previous entries |
| BundleSkills.RenderSkills | internal/app/bundle.go:602-633 | the entries of the rendered skills.json |
| BundleSkills.RenderedFacts | internal/app/bundle.go:602-633 | only bundle skills that are there and skills of the form are rendered, and every skill of the form is |
| BundleSkills.RenderingSettles | internal/app/bundle.go:602-633 | rendering over a rendered list gives the same list |
| BundleSkills.AddSkills | internal/app/bundle.go:624-628 | entries for the form's skills that the previous file did not have |
| BundleSkills.ReadableExactly | internal/app/bundle.go:153-182 | a rendered skills.json can be read back if and only if the names of the form's skills are not blank, differ, and none is that of a listed bundle skill that is there |
| BundleSkills.AsNewExactly | internal/app/bundle.go:602-633 | the rendered list is that of a form without a previous file if and only if that file has no bundle skill that is there and lists the form's first skills in order under the same names |
| BundleSkills.RefusedExactly | internal/app/bundle.go:153-182 | a skills.json is refused if and only if it is no list, or an entry is incomplete or lists what an earlier one lists |
| BundleSkills.RenderedInOrder | internal/app/bundle.go:602-633 | the rendered list is what stays of the previous one in its order, then the form's other skills in the form's order, each under the name it is due |
| BundleServers.ParseServers | internal/app/bundle.go:234-316 | accepts exactly the objects whose entries check under names of their own, in the order written |
| BundleServers.ReadBack | internal/app/bundle.go:414-431 | the reader gives back what was rendered, whenever it accepts it |
| BundleServers.ConnectorServer | internal/app/bundle.go:434-464 | the entry of a connector, built field by field |
| BundleServers.ConnectorEntryFits | internal/app/bundle.go:434-464 | a connector's entry names it, and the reader accepts it exactly when it has a url with a known transport, or else a command |
| BundleServers.FreshFacts | internal/app/bundle.go:655-659 | a fresh name is not taken; it is the stem, or its least free numbering from 2 on |
| BundleServers.FreshName | internal/app/bundle.go:655-659 | the loop terminates with that name |
| BundleServers.RenderServers | internal/app/bundle.go:635-668 | the entries of the rendered mcp.json |
| BundleServers.SplitServers | internal/app/bundle.go:639-648 | the unbound entries, their names, and the name each connector had |
| BundleServers.RefusedExactly | internal/app/bundle.go:234-316 | an mcp.json is refused if and only if it is no document, or an entry is defective or has the name of an earlier one |
| BundleServers.EntrySays | internal/app/bundle.go:434-472 | the entry of a connector: id, then url, transport and headers or command, arguments and environment |
| BundleServers.SecretsAreNamed | internal/app/bundle.go:434-472 | every secret is in an entry by its name only |
| BundleServers.NameSays | internal/app/bundle.go:644-662 | a connector keeps the name its entry had, else gets its own name or its id, numbered only when that is taken |
| Bundle.DeriveBundle | internal/app/bundle.go:493-551 | what is derived, or which problem is reported, for every bundle |
| Bundle.RenderBundle | internal/app/bundle.go:579-670 | the files of a form over those of an earlier version |
| Bundle.BoundNamesAreFresh | internal/app/bundle.go:649-662 | the names of the form's entries differ from each other and from every unbound entry's |
| Bundle.RenderedServers | internal/app/bundle.go:635-663 | a rendered mcp.json is bound to the form's known connectors in order and keeps the base's unbound entries in order |
| Bundle.SavingUnchangedIsAFixedPoint | internal/app/bundle.go:577-670 | when the rendered bundle derives, rendering the form over it gives the same bundle |
| Bundle.NoSkillIsMissing | internal/app/bundle.go:521-524 | a rendered bundle never fails for a listed skill that is not there |
| Bundle.DeriveUndoesRender | internal/app/bundle.go:493-551 | a rendered bundle that derives gives back instructions, soul and connectors in order, each skill of the form once, each directory once, and the base's unbound servers in order |
| Bundle.DeriveSkills | internal/app/bundle.go:510-533 | catalog skills and load order, or a listed skill that is not there |
| Bundle.DeriveServers | internal/app/bundle.go:534-549 | bound connector ids and unbound entries with their reasons |
| Bundle.LoadOrderFacts | internal/app/bundle.go:506-533 | each skill directory loads exactly once when the list is readable |
| Bundle.AgentStays | internal/app/bundle.go:588-600 | rendering agent.json over a rendered one gives the same: the description survives a form that has none |
| Bundle.HasSecret | internal/app/bundle.go:387-395 | an entry with a literal credential is found if and only if there is one |
| Bundle.ServersReadableExactly | internal/app/bundle.go:234-316 | a rendered mcp.json can be read back if and only if every known connector of the form has a url with a known transport, or else a command |
| Bundle.DerivesExactly | internal/app/bundle.go:493-551 | a rendered bundle derives if and only if it is within the limits, the names of its skills fit, its connectors can be loaded and no entry holds a credential |
| Bundle.FixedPointExactly | internal/app/bundle.go:577-670 | exactly when rendering again changes nothing, on form, base, connectors and skill names |
| Bundle.SharedNameIsNoFixedPoint | internal/app/bundle.go:613-628 | a catalog skill named like a listed bundle skill makes a second rendering change the bundle |
| Bundle.ANameCanBeShared | internal/app/bundle.go:613-628 | a concrete form and base of that kind |
| Bundle.AgentSays | internal/app/bundle.go:587-600 | agent.json has schema, name, the model if there is one, and the form's description, else the base's, else none |
| Bundle.DescriptionIsSaved | internal/app/bundle.go:587-600 | an edited description is read back as written, and one left empty keeps the base's |
| Bundle.TextsAreTheForms | internal/app/bundle.go:579-586 | AGENTS.md and SOUL.md are the form's texts, and what the form has no field for stays |
| Bundle.FormServersComeFirst | internal/app/bundle.go:635-668 | the rendered mcp.json is the entries of the form's connectors, called after them, then those that are not bound |
| Bundle.DerivedSays | internal/app/bundle.go:493-551 | what a bundle derives, told from its files: texts, skills in the order of the file and then of the paths, connectors and reasons in the order of the file |
| Bundle.RefusedExactly | internal/app/bundle.go:493-551 | a bundle is refused if and only if it has a defect, and with the first one in the order of the checks |
| Ring.SortPoints | internal/task/routing.go:42 | the sort gives the same points in ascending order |
| Ring.ConsistentRing.AddMember | internal/task/routing.go:36-40 | the points and owners after one member's loop, collisions included |
| Ring.ConsistentRing.SetMembers | internal/task/routing.go:27-43 | the rebuilt ring stands for the members listed |
| Ring.ConsistentRing.OwnerOf | internal/task/routing.go:45-57 | binary search gives the owner of the first point at or after the hash, or of the smallest one |
| Ring.OwnerIsUnique | internal/task/routing.go:45-57 | every task has exactly one owner |
| Ring.MinimalMovement | internal/task/routing.go:10-12 | adding a member anywhere in the list moves a task only to it, and removing one moves only its tasks |
| Ring.OrderDoesNotMatter | internal/task/routing.go:27-43 | without collisions between members their order does not matter |
| Ring.ConsistentRing.constructor | internal/task/routing.go:20-25 | a ring without members, with 64 replicas when fewer than one is asked for |
| Ring.OwnerIsFirstMet | internal/task/routing.go:45-57 | no point of the ring lies between a task's hash and its owner's point, going up and around; of several members with that point it is the last |
| Ring.PointsSay | internal/task/routing.go:33-41 | a member's points are the hashes of its replicas' names |
| Ring.PointNamesDiffer | internal/task/routing.go:33-41 | no two replicas hash the same text, of one member or of two |
| LikeSearch.LikeContains | internal/store/pgstore/mcpmarket.go:307-310 | the pattern of a keyword is well formed and matches exactly the texts that contain it lowered |
| LikeSearch.EscapedIsLiteral | internal/store/pgstore/mcpmarket.go:307-310 | an escaped text followed by % matches exactly the texts that start with it |
| LikeSearch.EscapingPreservesMeaning | internal/store/pgstore/mcpmarket.go:307-310 | under the LIKE semantics of ISO/IEC 9075-2 section 8.5 escaping means plain substring search |
| LikeSearch.FiltersAgree | internal/store/memstore/mcpmarket.go:162-194 | the SQL filter and the memory filter select the same records for every query |
| LikeSearch.OrdersAgree | internal/store/memstore/mcpmarket.go:196-217 | both stores order any two records alike |
| LikeSearch.ListsAgree | internal/store/memstore/mcpmarket.go:11-59 | both stores list the same records in the same order, so every page is the same |
| LikeSearch.SelectsExactly | internal/store/memstore/mcpmarket.go:162-194 | what both filters select: every condition of the query that is there holds of the record |
| EndToEnd.OneTransaction | internal/store/pgstore/task_events.go:26-68 | the projector's log moves exactly as the transaction that stores and applies the event |
| EndToEnd.AlwaysAFold | internal/store/pgstore/task_events.go:55-58 | in every run of the projector the projections are the fold of the log |
| EndToEnd.ProjectedExactlyOnce | internal/task/projector.go:106-166 | after any safe run the projections are the fold of a log that holds the outbox events of the first rows once each, in order |
| EndToEnd.AmountsComeFromTheOutbox | internal/store/pgstore/task_events.go:207-214 | after any safe run usage and budgets of a task are their initial values plus the deltas of its outbox rows, each counted once |
| EndToEnd.ApprovalViewsAgree | internal/store/pgstore/task_events.go:115-124 | when what was written is orderly, both views of a task's approvals agree after every run of the projector |
| EndToEnd.NodesShowTheNewest | internal/store/pgstore/task_events.go:105-106 | after any safe run a node's row shows an event that was written, and no marked row of the node has a higher version |
| EndToEnd.LogIsWritten | internal/store/pgstore/task_events.go:26-68 | in every run the log is well numbered and each of its events is one that was written, with its number |
| EndToEnd.AccountsComeFromTheRows | internal/store/pgstore/task_events.go:207-214 | after any safe run a task's budget is its initial value plus what the bodies of its rows grant, and its usage plus what they record, each row once |

## Left out

- KeyOf: an event key is a pair here; the source joins task id and event id with a NUL character, which no stored id contains.
- AppendDurable: the tenant that `appendEventRaw` takes from its task cache when the event has none (internal/task/events.go:79-83) is not modelled; the projector always fills it in.
- Project: leader election and LISTEN/NOTIFY are assumed away; one projector runs at a time, and outbox rows appear in id order.
- Allowed: the outbox writers' own duties (new event ids, increasing entity versions) are assumptions about code outside this repository, stated as what a step of the machine requires; what the same process appends of its own (internal/httpapi/handler.go:786, internal/task/events.go:70-73) names no entity there either.
- Breaks: the foreign key from the log to the tenants is left out; a row of a tenant that does not exist is refused like the rows of `Unholdable`, which the machine covers as a failure before the commit.
- AppendEvent: the sends to subscribers are modelled in `Subscribers`, and the manifests kept in memory not at all.
- InsertAttempt: the `runtime` column (config version, previous profile, reserved budget) is left out; it is copied from the event and read by nothing here.
- ProjectAttemptEvent: the `runtime` column of a row created by a finish is left out.
- InsertApproval: subject, node, attempt, tool call and request time are left out; they are copied and read by nothing here.
- DecideApproval: comment, flag and decision time are left out, for the same reason.
- TaskService: the seen-event cache evicts in an arbitrary order, not least recently used first; the proofs hold for any order.
- TrimmedBuffer: the time of the cut and the limit are parameters; clocks are not modelled.
- ClaimCommand: the memory ledger's eviction of old entries is left out; the refinement is for runs without eviction.
- UpdateChecked: the read of the task and the check for a closed one before the claim (internal/task/commands.go:23-32) refuse without touching the ledger and are left out, as are the configuration update and the local fallback without an orchestrator; the workflow is the set of update ids it has applied, because it deduplicates them.
- Conservation: amounts are integers, where the code adds float64 values; reconcile, which overwrites usage, is left out.
- ApplyEvent: task status, plan versions, messages and manifests are left out: each is one guarded insert or update of a row.
- ListTaskEvents: stored bodies are events, not JSON text; a row whose body does not decode is not part of this model.
- Subscribe: the replay is read before the channel is registered; events in between reach the client by the catch-up of `Stream`, so here the replay is an argument. The permission check and the error of an expired cursor are left out.
- Deliver: SSE framing, heartbeats and the HTTP handler around the sender are left out; a client takes a bounded number of frames and then fails.
- ValidateSop: the regular expressions for ids and references are fixed predicates on text; SHA-256 and the JSON encoding `SameSOP` compares by are replaced by comparing the values.
- NormalizeSopSteps: the source normalises a step's required artifacts inside the caller's slice; here the caller's steps do not change.
- NormalizeArtifacts: as above, it returns a new list instead of writing into the caller's slice.
- Register: the list of stored SOPs and the creation time are left out.
- OwnerOf: CRC-32 is an arbitrary function from text to 32-bit points; the read-write lock is left out.
- ListsAgree: lower-casing is one shared function from characters to characters, and ids compare by code point in both stores; paging cuts the same slice of the same list.
- DeriveBundle: the checks of paths, sizes and text encoding and the search for literal credentials are parameters; `scrub`, the import from archives and the digests are left out.
- HasSecret: what a literal credential is comes in as a predicate on an entry's fields.
- RenderBundle: JSON documents are values; field names that differ only in case, repeated fields and the text form are left out.
- Read: a JSON file is absent, empty, of another shape or holds a document; which texts are which is the JSON decoder's business.
- HTTP routing, authorization, Temporal, object storage, migrations, catalog installation, personas and settings are not modelled: they are plumbing or copying.
