# A verified model of the JamJet runtime's protocols

This project models the parts of the JamJet runtime whose correctness does not show in any one function,
and proves what they promise.

* **Durable runs and work items.** Runs with append-only logs, work items with leases and fences, the
  scheduler's dispatch and sweeps, approvals, cancel and failover. `RunStore` is the store as a value, with
  one action for each transaction the code makes; `Legal` says what the code knows when it makes one, which
  is always something it read when the log was a prefix of what it is now. `Backend` is the store as the
  routes see it, a class over tables updated in place, and `Routes`, `RunRoutes` and `ApprovalRoutes` are the
  handlers, call by call: between any two calls anybody else may make any legal writes, and a call may fail.
  Each handler is proved to make only legal writes, so the theorems over all executions (`RunSafety`,
  `Commits`, `Leases`) are theorems about the handlers. `Stranding`, `HalfWrites` and `StrandingTraces` say of
  every legal write whether it can leave a node with nothing to act on it. Most cannot; the others are half
  of what the code writes in two, and of each the exact condition is proved. They are the scheduler's and
  the workers', but for one: `RunRoutes.CompleteWorkItem` settles an item it could not read.
* **The audit chain.** The hashed byte stream, signatures in both modes, the verifier loop, and the enricher
  that seals under a lock.
* **The temporal graph.** The breadth-first search to a depth over relationships valid at a moment, and what
  ending a relationship does to the past.
* **Smaller algorithms.** Deduplication, budgeted context assembly, branch conditions, placeholder expansion,
  backoff.

Time is a number, and so is an entity's identity where only equality matters; names, payloads and outputs are
abstract types. Concurrency is interleaving of transactions. Cryptographic functions, JSON parsing, similarity
scores, search answers, secret lookup and the policy a tenant sets are parameters; where a theorem needs
something of them (that what a key signs verifies) it says so. Nothing assumes a hash without collisions: a
theorem that would need one names the two streams that collided.

Where a promise does not hold of the code outright, the code is kept, an execution that breaks the promise is
given, and the exact condition is proved. The executions of the work-item protocol are in `Witnesses`, write by write from the
empty store.

| promise | it holds exactly when | it breaks |
|---|---|---|
| A scheduled node is never stranded: dispatch | something else already carried the node (`Stranding.CutDispatchStrandsIff`) | `Witnesses.CrashInDispatchStrands` |
| the same: the lease sweep's late retry | the fold has the node finished or scheduled, or something carries it (`HalfWrites.LateRetryKeepsIff`) | `Witnesses.LateRetryStrands` |
| the same: a worker's late start event | the same (`HalfWrites.StartedKeepsIff`) | `Witnesses.LateStartStrands` |
| the same: the sweep's dead letter, before its failure event | the item was not leased any more, or something else carries the node (`HalfWrites.DeadLetterKeepsIff`); the event ends it (`HalfWrites.FailureEndsTheGap`) | `Witnesses.DeadLetterStrands` |
| the same: a fenced completion whose read of its own item failed | the fence was not held, or something else carries the node (`HalfWrites.BlindSettleKeepsIff`) | `Witnesses.BlindSettleStrands` |
| A gated result's payload was approved | the answered request's digest carries the item's payload, which the claim gate asks and the completion gate does not (`RunSafety.CompletionCoversThePayloadIff`) | `Witnesses.UnapprovedPayloadIsRecorded` |
| One approval, one result | a result is recorded between the two counts the completion gate makes (`RunSafety.ApprovalLastsIff`, `RunSafety.SharedApprovalIsARace`) | `Witnesses.OneApprovalTwoResults` |
| A higher term makes every fence new | the terms differ modulo 2^32 (`Fences.SameFence`) | `Fences.RaisedTermCanRepeatAFence` |
| A resumed run keeps its log's order | the run is live when it is resumed (`Commits.ResumeKeepsSafeIff`) | never, while nothing pauses a run (`Commits.NobodyPauses`) |
| A restart continues the audit chain | the query does not fail and every row stamped latest carries the last row's hash (`AuditEnricher.RestartContinuesIff`); with distinct hashes, the last row was stamped last (`AuditEnricher.LatestIsTheEndIff`) | `AuditEnricher.OutOfOrderRestart` |
| An acknowledged audit entry leaves the chain intact | its row id was unused, or its hash is the last row's (`AuditEnricher.AuditEnricher.TryEnrichAndAppend`); so while ids are distinct (`AuditEnricher.SealAll`) | only if two of the ids the calls draw at random coincide (`AuditEnricher.SameIdTwice`) |
| Ending a relationship keeps the graph's past | it was open, had not ended before, or never held before (`Graph.InvalidationKeepsThePastIff`) | `Graph.AnswerLost` |
| Backoff doubles | `Retry.DoublesIff` | no wait at all for attempts 33 to 64 (`Retry.ExponentialDelays`) |
| What evaluates to true is a valid expression | `Condition.RejectedTrueIff` | the shapes it lists |

Two places where the code and its documentation differ, and the model follows the code:
`runtime/core/src/condition.rs` documents array indices as all digits and literals as strings, numbers and
keywords, while the code also reads an index with a leading plus (`Condition.PlusIsAnIndex`) and any JSON text
as a literal (the parser is a parameter). The view of decided approvals calls its fallback entry unreachable;
it is what every decided node gets when the log holds an event this build cannot read
(`Approvals.DecidedListingIsADecision`).

## Model

| member | source | states |
|---|---|---|
| Workflow.TerminalIsLast | runtime/core/src/workflow.rs:53-87 | Terminal statuses are exactly those no valid transition leaves; in a valid history one is last, and `Pending` is first. |
| EventLog.PendingNamesItsRequest | runtime/state/src/approvals.rs:111-182 | A pending status names a request that is in the log, for that node, at its sequence. |
| EventLog.PendingSinceRequest | runtime/state/src/approvals.rs:111-182 | A node pending on a request was pending on it in every prefix since the request. |
| EventLog.ApprovedNamesItsDecision | runtime/state/src/approvals.rs:111-182 | An approved status names the approval in the log that decided it, with its digest, made while the node was pending. |
| EventLog.StatusIs | runtime/state/src/approvals.rs:111-182 | The status of a node without the fold: indeterminate exactly if an entry is unreadable, not requested if no request of it is in the log, pending on the latest request while nothing answered that, and otherwise what the first answer to it says. |
| EventLog.InitiatorIsTheFirst | runtime/state/src/approvals.rs:404-409 | The run's initiator is what the first entry that starts a workflow says, and nothing without one. |
| EventLog.ListingAgreesWithStatus | runtime/state/src/approvals.rs:412-457 | The listing of pending approvals and the per-node status, two separate folds, agree on every node of every log. |
| EventLog.ProgressAgreesWithApprovals | runtime/scheduler/src/runner.rs:774-960 | The scheduler's fold holds an unfinished node exactly while the approval fold has it pending, on the same request, and marks it for failure once rejected. |
| EventLog.CompletedMeansCounted | runtime/scheduler/src/runner.rs:774-960 | The scheduler calls a node completed exactly when the log counts a completion of it or passed it over. |
| EventLog.FailedMeansRecorded | runtime/scheduler/src/runner.rs:774-960 | The scheduler gives a node up exactly when the log holds a failure of it that is not retried. |
| EventLog.ScheduledMeansItHoldsASlot | runtime/scheduler/src/runner.rs:774-960 | An unfinished node is scheduled exactly when an entry scheduled, started or retried it and no later one was a failure of it or an approval of its open request. |
| EventLog.CompletionsMonotone | runtime/state/src/sqlite.rs:1412-1433 | A count of completions read earlier is never above the count now. |
| EventLog.CompletionsCounts | runtime/state/src/sqlite.rs:1412-1433 | The count is of the node's own completions, each once. |
| Approvals.NamedReviewPassesIff | runtime/api/src/approvals.rs:219-343 | A submission that names its node passes the checks exactly when the request is open, has no deadline or one after the moment of the check, the decider is known where that is asked, an approver is not the recorded initiator and there is one, and the echoed binding is the action digest or, without one, the hash of the calls. |
| Approvals.NamedReviewIs | runtime/api/src/approvals.rs:219-343 | The answer to a submission that names its node, in full and in order: unreadable log, not pending (expired or not), unknown principal, self-approval, unknown initiator, out of time, binding missing, binding wrong, or the ruling. |
| Approvals.ReviewIsSound | runtime/api/src/approvals.rs:219-343 | A ruling names the pending request and its digest; with no node named it resolves only when exactly one node is pending; an echo is of that request. |
| Approvals.NamelessIsTheOnlyOne | runtime/api/src/approvals.rs:233-262 | Naming no node is naming the only pending one when there is exactly one; otherwise nothing passes. |
| Approvals.NamelessRefusal | runtime/api/src/approvals.rs:233-262 | With no node named and none pending the answer is that the request made last expired, exactly if it did, and otherwise that nothing is pending; with several pending it names them. |
| Approvals.RefusalsAreTrue | runtime/api/src/approvals.rs:219-330 | Every refusal of the checks says something true of the log, the submission and the clock; a node is called not pending, or nothing pending, only where nothing expired. |
| Approvals.LapsedIff | runtime/state/src/approvals.rs:734-759 | A request counts as expired exactly when it was the latest of its node and is answered with its expiry in the log, or is open with its deadline reached or unreadable. |
| Approvals.RequestedMeansListed | runtime/api/src/approvals.rs:422-433 | A node was ever requested exactly when the pending fold has a slot for it. |
| Approvals.DecidedListingIsADecision | runtime/api/src/approvals.rs:422-469 | A requested node that is not pending has a decision exactly when the log is readable; otherwise it gets the fallback entry. |
| Guard.ReleaseNeedsAnApproval | runtime/workers/src/node_guard.rs:777-840 | A gated node fires only under an approval in the log of exactly that run, node, definition, payload and occurrence. |
| Guard.RecordingNeedsAnApproval | runtime/workers/src/node_guard.rs:967-1015 | A result of a gated node is recordable only under the latest approval of it in the log, whose request was raised for this very occurrence; of a request that names none the whole digest is compared. |
| Guard.FiresIff | runtime/workers/src/node_guard.rs:388-470 | The firing guard exactly, in terms of the policies and the log: a deny of the workflow, or of the tenant where the workflow is silent, blocks; a permit allows; a gate allows only on an approval of the latest request that carries exactly this action, holds without raising while the request is open or refused, cannot tell on an unreadable log, and otherwise raises a request for this action and occurrence with the deadline given. |
| Guard.CompletesIff | runtime/workers/src/node_guard.rs:967-1015 | The completing guard exactly: no result of a denied node, any of a permitted one, and of a gated one only under the approval of its latest request, raised for this occurrence. |
| Approvals.DecisionIsOnTheLatest | runtime/state/src/approvals.rs:111-182 | A pending node is pending on its latest request, and an approved one was approved on it, so the answered request the completion gate reads is the one the approval answered. |
| Approvals.StillPendingIff | runtime/state/src/approvals.rs:704-712 | The condition of a conditional append holds exactly when every entry is readable and the request named is the node's latest and unanswered. |
| Approvals.StillOpenIff | runtime/state/src/approvals.rs:714-732 | For a decision it must also have no deadline or one that is not reached. |
| Fences.SameFence | runtime/state/src/sqlite.rs:1333-1336 | Two fences, computed in a wrapping 64-bit integer, are equal exactly when their epochs are equal and their terms agree modulo 2^32. |
| Fences.EpochSurvivesMinting | runtime/state/src/backend.rs:748-762 | The epoch read back from a fence is the epoch it was minted at, for every term. |
| Fences.FencesAreOrdered | runtime/api/src/routes.rs:2134-2146 | Below term 2^31 fences do not wrap, are positive once claimed, and grow with the term first and the epoch second. |
| Fences.RaisedTermCanRepeatAFence | runtime/state/src/sqlite.rs:95-106 | A raise from term 0 to 2^32, which startup accepts, brings the first fence back. |
| StoreHistory.ApplyExtends | runtime/state/src/sqlite.rs:280-560 | No write undoes anything: logs only grow, registered versions and coordinates stay, epochs rise, settled stays settled, and no lease appears without a new epoch. |
| StoreHistory.TraceExtends | runtime/state/src/sqlite.rs:280-560 | The same over any sequence of legal writes. |
| StoreHistory.DefinitionIsStable | runtime/api/src/routes.rs:257-291 | The definition an item's node resolves to is the same at every later moment. |
| StoreHistory.FenceIdentifiesLease | runtime/state/src/sqlite.rs:1280-1365 | A fence held at two moments is one lease, handed out once. |
| StoreHistory.WithheldIsStable | runtime/api/src/routes.rs:1716-1750 | A hold seen under a lease still justifies the settle made under its fence, whatever was written since. |
| StoreHistory.ReviewIsStable | runtime/api/src/approvals.rs:345-376 | A review of an earlier read still justifies the conditional append. |
| RunSafety.OneOutcomePerRequest | runtime/api/src/approvals.rs:345-399 | In a sound log each approval request has at most one outcome, approved, rejected or expired. |
| RunSafety.OneEscalationPerRequest | runtime/scheduler/src/runner.rs:196-225 | In a sound log each request is escalated once at most. |
| RunSafety.ApprovalAnswersItsRequest | runtime/api/src/approvals.rs:264-376 | Every recorded approval answers an earlier request of its node, within its deadline, with exactly its digest, as its only outcome, by a known decider who is not the run's initiator unless the install allows it. |
| RunSafety.CompletableNeedsItsApproval | runtime/api/src/routes.rs:1842-1901 | What the completion gate passes for a gated node has an approval in the run's log that binds the run, the node, its registered definition and the occurrence the gate counted. |
| RunSafety.CompletionCoversThePayloadIff | runtime/workers/src/node_guard.rs:967-1015 | When the completion gate passes, the approval it rests on binds the run, node, definition and occurrence, and the payload exactly if the answered request's digest carries it, which is when the claim gate would pass on the same read. |
| RunSafety.ApprovalLastsIff | runtime/workers/src/node_guard.rs:990-998 | An approval that covered one count of completions covers a later one exactly when no result of the node was recorded in between. |
| RunSafety.SharedApprovalIsARace | runtime/workers/src/node_guard.rs:994-998 | Two results of a node rest on one approval only if the second's count of completions was read before the first was recorded. |
| RunSafety.StepIsSafe | runtime/api/src/routes.rs:2126-2290 | One legal write keeps every run's log ordered, its decisions sound, every gated result preceded by an approval of the occurrence the node was at between approval and result, and no result of a node its workflow denies. |
| RunSafety.ReachableIsSafe | runtime/api/src/routes.rs:2126-2290 | The same of every state reachable from the empty store under any interleaving. |
| RunSafety.DeniedNeverCompletes | runtime/api/src/routes.rs:1892-1901 | No log of any reachable state holds a result of a node whose registered workflow denies it, whatever the tenant's policy. |
| Commits.AtMostOneCommit | runtime/api/src/routes.rs:2103-2163 | Over any run of the system an item is committed at most once, and never once it is settled. |
| Commits.CommitsAreOne | runtime/api/src/routes.rs:2103-2163 | Two steps of an execution that commit one item are the same step. |
| Commits.CommitFilesUnderItsItem | runtime/api/src/routes.rs:2150-2171 | A commit appends one event, to the item's own run and about its own node, while that run is live and its log holds no end. |
| Commits.LogCountsTheResults | runtime/state/src/sqlite.rs:280-560 | The completions of a node in a log are those it started with plus exactly the results the fenced commits recorded. |
| Commits.TraceEarnsGrants | runtime/api/src/routes.rs:1341-1410 | Every lease whose fence a worker was told belongs to an item the claim gate allowed, and while the lease is held or can be re-attached, allowed on a read made since the claim it goes back to. |
| Commits.ReleasedResultIsCovered | runtime/api/src/routes.rs:1510-1612 | A gated node's result reported under a released lease is preceded by an approval of exactly its run, node, definition and payload, for an occurrence the node was at since the claim this lease goes back to. |
| Commits.NobodyPauses | runtime/api/src/approvals.rs:401-408 | No write pauses a run, so the flip's guard never holds in a store that started without a paused run. |
| Commits.ResumeKeepsSafeIff | runtime/api/src/approvals.rs:401-408 | The flip back to running keeps every run safe exactly when the run is still live at that moment. |
| Leases.LostFenceStaysLost | runtime/state/src/sqlite.rs:1280-1365 | Once an item was handed out again, every fence it is held under is greater than its earlier one, and nothing sent under the earlier one changes anything. |
| Leases.LapsedLeaseComesBack | runtime/state/src/sqlite.rs:1394-1410 | A lease that only expired can be taken back: by the same worker, under a new fence two epochs on, at no cost in attempts, going back to the same claim, and told if the old one was. |
| Leases.ReclaimedLeaseDoesNot | runtime/state/src/sqlite.rs:2827-2905 | Once the item was claimed in between, the old fence takes nothing back, not even after that lease expired too. |
| Leases.OldFencesCannotSettle | runtime/api/src/main.rs:118-130 | After the term was raised over any store the new primary came up with, nothing sent under a fence of the old primary changes anything of an item handed out again. |
| StrandingTraces.NoStrandedNode | runtime/api/src/routes.rs:1716-1767 | From the empty store, after any execution whose half writes met their safeguards: a scheduled, unfinished node of a live run has a queued item, a leased one whose result would be taken, or a recorded request that is open or refused, unless its dispatch had begun and not finished. |
| Stranding.WholeStepStrandsNothing | runtime/api/src/routes.rs:2193-2224 | No single whole write leaves a node that was carried with nothing that will act on it. |
| HalfWrites.SweepKeeps | runtime/scheduler/src/runner.rs:267-327 | Nor does the sweep's re-queue of a lapsed lease, or the failure event it records later. |
| HalfWrites.HalfWriteStrandsNothingIff | runtime/scheduler/src/runner.rs:267-327 | A write that is half of one, from a state in which nothing is stranded, leaves nothing stranded in the whole store exactly when its safeguard holds. |
| StrandingTraces.StepStrandsNothingIff | runtime/api/src/routes.rs:2193-2224 | The two together, for every legal write. |
| StrandingTraces.TraceStrandsNothingIff | runtime/api/src/routes.rs:1716-1767 | Over any execution of legal writes, nothing is ever stranded, in any state it passes through, exactly when every half write met its safeguard in the state in which it landed. |
| Stranding.CutDispatchStrandsIff | runtime/scheduler/src/runner.rs:595-640 | A crash between the scheduled event and the item leaves the node carried exactly when something else already carried it. |
| HalfWrites.LateRetryKeepsIff | runtime/scheduler/src/runner.rs:267-302 | The sweep's separate retry event keeps the promise exactly when the fold has the node finished or scheduled by then, or something carries it. |
| HalfWrites.StartedKeepsIff | runtime/workers/src/worker.rs:186-197 | So does a start event recorded after its lease was lost. |
| HalfWrites.DeadLetterKeepsIff | runtime/state/src/sqlite.rs:1769-1818 | Until its failure event is recorded, a dead-lettered item keeps the promise exactly when it was not leased any more or something else carries the node. |
| HalfWrites.FailureEndsTheGap | runtime/scheduler/src/runner.rs:304-320 | Once recorded, the failure event leaves its node scheduled no longer, whatever happened before. |
| HalfWrites.BlindSettleKeepsIff | runtime/api/src/routes.rs:2210-2224 | Settling an unread item without an event keeps the promise exactly when the fence was not held or something else carries the node. |
| Witnesses.CrashInDispatchStrands | runtime/scheduler/src/runner.rs:595-640 | A reachable state, after such a crash, in which a node is scheduled and nothing in the store will act on it. |
| Witnesses.LateRetryStrands | runtime/scheduler/src/runner.rs:267-302 | A reachable stranded node: re-queued by the sweep, claimed again, held, approved, and only then recorded as to be retried. |
| Witnesses.LateStartStrands | runtime/workers/src/worker.rs:186-197 | The same where the worker that lost the first lease records its start only then. |
| Witnesses.DeadLetterStrands | runtime/scheduler/src/runner.rs:304-320 | A reachable stranded node: its only attempt lapsed, its item is with the dead letters, and the sweep stopped before the failure event. |
| Witnesses.BlindSettleStrands | runtime/api/src/routes.rs:2210-2224 | A reachable stranded node: claimed, and settled by a completion that could not read its item. |
| Witnesses.UnapprovedPayloadIsRecorded | runtime/api/src/routes.rs:2103-2163 | A reachable log in which another node completes while a gated node waits, the gated node is dispatched again with the payload then built, and is completed by that item, whose payload no approval binds, under a fence that was never released. |
| Witnesses.OneApprovalTwoResults | runtime/api/src/routes.rs:2103-2163 | A reachable log with two results of a gated node by two released leases, and one approval. |
| Backend.StateBackend.Interfere | runtime/api/src/routes.rs:1489-1506 | Anybody else's writes between two calls: the tables become what those of them that are legal where they land make of them, one after the other. |
| Backend.StateBackend.StoreWorkflow | runtime/state/src/sqlite.rs:566-619 | A version is written once; the same definition is accepted again, another is refused and changes nothing. |
| Backend.StateBackend.StartExecutionAtomic | runtime/state/src/sqlite.rs:988-1006 | The run, its first two events and its item appear in one write or not at all. |
| Backend.StateBackend.ClaimWorkItem | runtime/state/src/sqlite.rs:1280-1365 | A claim takes a queued item only, and leaves exactly its row: claimed, by this worker, under the next epoch and the fence minted for it, its lease dated by the log's length; nothing else changes. |
| Backend.StateBackend.CommitTurnUnlessTerminal | runtime/state/src/sqlite.rs:286-400 | Records exactly when the fence is held and the run live; a lost fence changes nothing; an ended run only withdraws the holder's item. |
| Backend.StateBackend.SettleHeldItem | runtime/state/src/sqlite.rs:1465-1489 | Settles exactly when the fence is held. |
| Backend.StateBackend.HeartbeatLease | runtime/state/src/sqlite.rs:2827-2905 | Renews the lease held, or re-attaches one that only expired and nobody was handed since; otherwise writes nothing. |
| Backend.StateBackend.AppendDecision | runtime/state/src/sqlite.rs:2537-2612 | Appends a decision exactly when the run is live and the request still open at the append, at the sequence it returns. |
| Backend.StateBackend.AppendExpiry | runtime/state/src/sqlite.rs:2537-2612 | Appends an expiry exactly when the run is live and the request still pending. |
| Backend.StateBackend.AppendEscalation | runtime/scheduler/src/runner.rs:198-228 | Appends an escalation exactly when the request is pending in a live run and never escalated. |
| Backend.StateBackend.FinishExecution | runtime/state/src/sqlite.rs:2413-2503 | Writes the status and the event together, exactly when the run is live. |
| Backend.StateBackend.CountNodeCompletions | runtime/state/src/sqlite.rs:1412-1433 | Counts the node's completions in the log. |
| Routes.GuardItem | runtime/workers/src/node_guard.rs:181-330 | The firing guard, with others writing between its reads: an allow stays evidence, a hold is of a node withheld under the caller's lease. It blocks exactly what is denied, always allows what is permitted, and writes only the request it raised or, unless that fails, the violation. Undisturbed its decision and its writes are those of the policies and the log as they stand. |
| Routes.RequireRecordedApproval | runtime/workers/src/node_guard.rs:777-935 | Reading the log, counting and raising the request as separate steps still release only what an approval in the log covers. |
| Routes.FailNode | runtime/api/src/routes.rs:1923-1962 | A permanent refusal settles and records in one fenced commit under the item's own coordinates. |
| Routes.SettleHold | runtime/api/src/routes.rs:1716-1750 | A held item is settled only under the claim's own fence, on a hold seen under it. |
| Routes.GateClaimedItem | runtime/api/src/routes.rs:1510-1767 | The gate releases only what the guard allowed under the engine's record of the run's workflow, writing nothing; a permitted node it releases whenever its two reads succeed. What it withholds it settles with legal writes of its own item, never with a result. Undisturbed it releases exactly what may fire, its writes are the violation or request and the settle that the refusal calls for, and nothing withheld stays leased unless the log is unreadable. |
| Routes.TryClaim | runtime/api/src/routes.rs:1365-1392 | One round claims, and fails the item exactly when its run is seen ended under the lease; undisturbed the tables after it are given for each outcome. |
| Routes.ClaimLoop | runtime/api/src/routes.rs:1363-1392 | At most sixteen claims, each item but the last failed with its ended run, and the last returned under its fresh lease, its run seen live; undisturbed it returns the first candidate of a live run behind none but claimable, distinct items of ended runs, with its row as leased, and nothing exactly when there is none such. |
| Routes.ClaimWorkItem | runtime/api/src/routes.rs:1347-1410 | A payload leaves the engine only under a lease minted for this caller, after the gate allowed it on a read made under that lease, as the last thing done; every other answer hands over nothing. Undisturbed the answer is an item exactly when the first live candidate among sixteen may fire by rule, tenant and log, and it is that item with its row as leased; otherwise no item is left leased to the caller unless its log is unreadable. |
| Routes.GateAndHandOut | runtime/api/src/routes.rs:1394-1455 | Undisturbed the item is handed over exactly when it may fire; a permitted one whenever the gate's reads succeed, whatever others write. |
| RunRoutes.CreateWorkflow | runtime/api/src/routes.rs:257-291 | A registered version keeps its definition; the route confirms exactly the stored definition and refuses another. |
| RunRoutes.StartRun | runtime/api/src/routes.rs:373-452 | A run starts whole, under the version that was read, or nothing is written; undisturbed it starts exactly when the version, its start node and two unused ids are there. |
| RunRoutes.CancelExecution | runtime/api/src/routes.rs:495-546 | An acknowledged cancel is the last entry of the log with the status, in one write; a refused one wrote nothing and names the status the run ended with; undisturbed it succeeds exactly on a live run. |
| RunRoutes.NothingAfterCancel | runtime/api/src/routes.rs:518-545 | After a recorded cancel no result, decision, expiry or second ending is ever recorded. |
| RunRoutes.HeartbeatWorkItem | runtime/api/src/routes.rs:2554-2602 | A heartbeat writes nothing but a re-attachment of the caller's lease, and signals a cancel only when the run has ended. The fence it tells is the one the item was held under by this worker when the lease was renewed, and a different one after a re-attachment; undisturbed it still is, and the heartbeat renews exactly a held or re-attachable lease. |
| RunRoutes.CompletionGate | runtime/api/src/routes.rs:1842-1901 | Passes a result only on evidence that stays good until the commit, and never of a node that its workflow denies, or the tenant where that is silent; writes nothing. Undisturbed it passes exactly a permitted node, or a gated one whose latest request was approved for the occurrence at hand. |
| RunRoutes.CompleteWorkItem | runtime/api/src/routes.rs:2033-2224 | On the fenced path a recorded result is the last entry of the item's own run, settled the item, and is of a node nobody denied; refusals wrote nothing; a fence no claim mints never reaches the store. Undisturbed it records exactly what is permitted, or approved for the occurrence, under the fence held, in a live run. |
| ApprovalRoutes.SubmitApproval | runtime/api/src/approvals.rs:187-412 | An error means this submission wrote nothing; success means the submitted decision is the last entry, still sound when it landed, on the request the decider echoed. An answer that the request expired, or that somebody else was first, is true of the log read. Undisturbed the answer is the checks' own, and an accepted review is recorded exactly if the request is still open. |
| ApprovalRoutes.LateAnswer | runtime/api/src/approvals.rs:381-396 | The loser of a race is told that the request expired exactly when it had, on the log as read once more, and otherwise that somebody else was first. |
| ApprovalRoutes.AnswersWhatWasReviewed | runtime/api/src/approvals.rs:343-376 | The request that was read, reviewed and echoed is the one the appended decision names. |
| ApprovalRoutes.NeverOpenAgain | runtime/state/src/approvals.rs:704-712 | A request that stopped being the open one never is again. |
| ApprovalRoutes.SweepDeadlines | runtime/scheduler/src/runner.rs:153-235 | The sweep records only expiries and escalations it read as due, and when nothing failed, no request it read as overdue is open in a live run, and none it read as due for escalation is open in one without having been escalated. |
| Hex.DecodeReads | runtime/audit/src/signer.rs:433-435 | Decoding reads a text as given bytes exactly when its lower case is their encoding. |
| Hex.RoundTrip | runtime/audit/src/entry.rs:163 | What is written in hexadecimal is read back. |
| Hex.EncodeIsHex | runtime/audit/src/entry.rs:163 | Each byte is written as two lower-case digits, the high half first. |
| AuditSigner.StatementIsSorted | runtime/audit/src/signer.rs:150-163 | The statement's members stand in the order section 3.2.3 of RFC 8785 asks for. |
| AuditSigner.StatementInjective | runtime/audit/src/signer.rs:150-163 | A statement names one entry hash and one key id. |
| AuditSigner.StatementIs | runtime/audit/src/signer.rs:150-163 | For a hash and a key id JSON does not escape, the signed bytes are the documented object, member by member. |
| AuditSigner.EscapeIs | runtime/audit/src/signer.rs:150-163 | Strings are escaped as section 3.2.2.2 of RFC 8785 asks. |
| AuditSigner.KidIs | runtime/audit/src/signer.rs:144-146 | The key id is the hexadecimal form of the first eight bytes of the public key's hash. |
| AuditSigner.Ed25519VerifiesIff | runtime/audit/src/signer.rs:469-491 | A stored signature verifies exactly when it is the prefix, this key's id, a colon and the hexadecimal form of 64 bytes the key accepts. |
| AuditSigner.Ed25519Covers | runtime/audit/src/signer.rs:469-491 | A signature that verifies for two texts is one the key accepts for two statements, which differ if the texts do. |
| AuditSigner.HmacVerifiesIff | runtime/audit/src/signer.rs:402-440 | A tag verifies for a text exactly when it is the hexadecimal form, in either case, of the text's own MAC, and signing writes the lower-case form. |
| AuditSigner.HmacCovers | runtime/audit/src/signer.rs:428-440 | A tag that verifies for one text verifies for another exactly when the MAC does not tell the two apart. |
| AuditSigner.KeylessSigns | runtime/audit/src/signer.rs:402-431 | Without a key nothing verifies and nothing is signed, and a public key signs nothing. |
| AuditSigner.SignedVerifies | runtime/audit/src/signer.rs:402-446 | What a signer signs it verifies, in either mode, and so does the holder of the public key alone. |
| AuditSigner.ModesNeverMix | runtime/audit/src/signer.rs:428-446 | No signature of one mode passes for one of the other. |
| AuditSigner.OneKeyId | runtime/audit/src/signer.rs:469-491 | A signature verifies under one key id only. |
| AuditEntry.HashedBytes | runtime/audit/src/entry.rs:127-164 | Feeding the hasher field by field feeds the nineteen separated fields. |
| AuditEntry.FieldsAre | runtime/audit/src/entry.rs:134-161 | The nineteen fields, one by one in their order. |
| AuditEntry.LittleEndianIs | runtime/audit/src/entry.rs:137 | Byte k of the sequence is its digit of weight 256 to the k. |
| AuditEntry.StreamInjective | runtime/audit/src/entry.rs:127-164 | Without the separator in a text field, two streams are equal exactly when the hashed contents are, up to absent against empty. |
| AuditEntry.SeparatorsCanCollide | runtime/audit/src/entry.rs:9-13 | With a separator in a text field two different contents give one stream. |
| AuditEntry.SequenceInjective | runtime/audit/src/entry.rs:137 | Eight little-endian bytes tell 64-bit sequences apart. |
| AuditEntry.AuditLogEntry.Seal | runtime/audit/src/entry.rs:178-183 | Sealing records the link, the hash over content and link, and the signer's signature of that hash. |
| AuditChain.VerifyChain | runtime/audit/src/chain.rs:70-105 | Accepts exactly the faultless logs, and otherwise returns the least faulty index with its first fault in the code's order. |
| AuditChain.ChainIsEntriesAndLinks | runtime/audit/src/chain.rs:46-105 | A log is accepted exactly when every entry verifies alone and links to the one before. |
| AuditChain.KeptTagIff | runtime/audit/src/chain.rs:46-105 | An entry put in the place of an accepted one, keeping its tag, verifies exactly when its hash is that of its content and the MAC does not tell the new hash from the old; so a log with it is accepted only if the two MACs agree. |
| AuditChain.KeptSignature | runtime/audit/src/chain.rs:46-105 | Under Ed25519 it verifies only if the key accepts one signature for the statements of both hashes. |
| AuditChain.AcceptanceIsPrefixClosed | runtime/audit/src/chain.rs:70-105 | A log is accepted exactly when a prefix is and the rest is faultless. |
| AuditChain.LastHashDeterminesTheLog | runtime/audit/src/chain.rs:70-105 | Two accepted logs with the same last hash have the same length, contents, links and hashes, or an entry of one and an entry of the other whose different byte streams have one hash. |
| AuditChain.CollisionMakesTwoLogs | runtime/audit/src/chain.rs:70-105 | Two contents whose first streams collide are two different accepted logs with one last hash. |
| AuditChain.SealExtendsIff | runtime/audit/src/enricher.rs:213-231 | One sealed entry more is accepted exactly when its signer held a key and sealed it onto the last hash; without a key it is reported as unsigned. |
| AuditChain.ThirdPartyAgrees | runtime/audit/src/signer.rs:428-446 | The holder of the public key accepts exactly what the signing key accepts. |
| AuditChain.UnsignedAcceptsNothing | runtime/audit/src/chain.rs:70-105 | A verifier without a key accepts the empty log only. |
| AuditEnricher.AuditEnricher.LatestEntryHash | runtime/audit/src/enricher.rs:114-121 | The seed is the hash of a row no other is stamped after, or none if the query fails or the log is empty. |
| AuditEnricher.AuditEnricher.SealEntry | runtime/audit/src/enricher.rs:206-234 | The entry is sealed onto the head, or onto the seed of a first call; it becomes a row exactly when the append is acknowledged and its id unused; the head moves to its hash exactly when the append is acknowledged, stored or not. |
| AuditEnricher.AuditEnricher.TryEnrichAndAppend | runtime/audit/src/enricher.rs:136-147 | Every failure is counted; a log in chain stays in chain exactly when the call failed, its id was unused, or the row that was not stored has the last row's hash. |
| AuditEnricher.SealAll | runtime/audit/src/enricher.rs:136-234 | Of any calls, any of whose appends fail or repeat an id, each is a new row, a counted failure or a dropped row; while none was dropped, which no call with an unused id is, the log is one the verifier accepts. |
| AuditEnricher.RestartContinuesIff | runtime/audit/src/enricher.rs:114-121 | After a restart over a non-empty log the next entry verifies, whichever latest row the query returns, exactly when the query does not fail and every row stamped latest carries the last row's hash. |
| AuditEnricher.LatestIsTheEndIff | runtime/audit/src/enricher.rs:114-121 | With distinct hashes that is: every other row was stamped before the row appended last. |
| AuditEnricher.OutOfOrderStampsBreakARestart | runtime/audit/src/enricher.rs:167-216 | Two calls that take the lock against their timestamps leave an accepted log, and what is sealed after a restart verifies only if the two rows' streams have one hash. |
| AuditEnricher.OutOfOrderRestart | runtime/audit/src/enricher.rs:167-216 | The same by the calls: two calls, a restart and a third call, none of which fails, leave a log the verifier refuses. |
| AuditEnricher.SameIdTwice | runtime/audit/src/sqlite.rs:111-147 | What ignoring a taken id does, should two of the ids drawn at random in the calls coincide: three acknowledged calls leave two rows of which the second links to a hash in no row. |
| AuditEnricher.HashesCanDiffer | runtime/audit/src/entry.rs:127-164 | What these two ask of the hash can be met, for any contents: some hash tells every first row from every linked one. |
| TextOrder.TextOrderIsTimeOrder | runtime/engram/src/graph_sqlite.rs:293-299 | Comparing stored UTC timestamps as texts is comparing the moments, up to the year 9999. |
| TextOrder.LongYearsSortFirst | runtime/engram/src/graph_sqlite.rs:293-299 | Any year written with a sign sorts before every four-digit one. |
| TextOrder.Rfc3339Is | runtime/audit/src/entry.rs:147 | A stored timestamp is its padded fields with the punctuation of the format. |
| GraphTimes.TextClauseIsTheClause | runtime/engram/src/graph_sqlite.rs:293-299 | The SQL clause over the stored texts admits exactly the relationships the graph's clause admits, however time is counted in agreement with the calendar. |
| GraphTimes.DigitsCount | runtime/engram/src/graph_sqlite.rs:293-299 | There is such a count. |
| Graph.ClauseIsValidity | runtime/engram/src/fact.rs:249-257 | The SQL validity clause at a moment is `is_valid_at`, and the clause of now is validity at every moment from the start on. |
| Graph.WithinMeansWalk | runtime/engram/src/graph_sqlite.rs:287-358 | An entity is within n hops exactly when a walk of at most n valid relationships leads to it. |
| Graph.GraphStore.Neighbors | runtime/engram/src/graph_sqlite.rs:287-358 | The search ends and returns exactly the stored entities at distance 1 to depth and the valid relationships with an end nearer than depth. |
| Graph.MarksAreDistances | runtime/engram/src/graph_sqlite.rs:310-350 | When the queue is empty, the remaining depths the entities were queued with are their distances. |
| Graph.NeighborhoodIsTheAnswer | runtime/engram/src/graph_postgres.rs:266-345 | That answer is determined by what is stored, whatever order the rows come in and whichever store runs the loop. |
| Graph.GraphStore.InvalidateRelationship | runtime/engram/src/graph_sqlite.rs:263-275 | Sets the end of a known relationship and nothing else. |
| Graph.InvalidationKeepsThePastIff | runtime/engram/src/graph_sqlite.rs:263-275 | Ending a relationship leaves every answer about every earlier moment as it was, but for the end it shows, exactly when it was open, had not ended before, or never held before. |
| Graph.EndedIsGone | runtime/engram/src/graph_sqlite.rs:263-275 | From its end on, a relationship is in no answer. |
| Graph.GraphStore.UpsertRelationship | runtime/engram/src/graph_sqlite.rs:233-261 | A new id gets the row as given; a repeated upsert replaces exactly the label and the end of its row; no other row changes, and no edge's ends or start. |
| Graph.GraphStore.UpsertEntity | runtime/engram/src/graph_sqlite.rs:195-231 | A new id gets the entity as given; a repeated upsert replaces exactly its details and keeps its scope and creation time; nothing else changes. |
| Graph.EntityWriteShowsOnlyItself | runtime/engram/src/graph_sqlite.rs:195-231 | Writing an entity, new or known, changes in any search only how that entity is shown where it is within reach. |
| Dedup.FactStore.OpDedup | runtime/engram/src/consolidation.rs:315-369 | Each fact is superseded at most once, by a fact it scores above 0.99 with; a merged fact is invalid and, where the link could be written, linked to its keeper, and every other is as it was; the count is the facts invalidated; with whole searches no survivor scores above 0.99 with another. |
| Dedup.ChainsEnd | runtime/engram/src/consolidation.rs:350-364 | Every chain of supersession links ends at a listed fact that survived. |
| Dedup.SurvivorsStandApart | runtime/engram/src/consolidation.rs:315-369 | Of two listed survivors with vectors neither scores above the threshold against the other. |
| Context.StableSortIsUnique | runtime/engram/src/context.rs:107-119 | The tier order is the only one sorted by tier that keeps each tier's facts in their order. |
| Context.TierOrderKeepsTiers | runtime/engram/src/context.rs:107-119 | It keeps each tier's facts in their order. |
| Context.SortByTierPriority | runtime/engram/src/context.rs:117-119 | The in-place sort leaves the tier order of what was there. |
| Context.Fill | runtime/engram/src/context.rs:286-300 | The loop keeps a fact exactly when it fits beside those kept before it. |
| Context.GreedyIsMaximal | runtime/engram/src/context.rs:286-300 | What is kept fits the facts' budget, and nothing left out would still fit. |
| Context.GreedyIsUnique | runtime/engram/src/context.rs:286-300 | There is one such choice. |
| Context.GreedyByTheNumbers | runtime/engram/src/context.rs:286-300 | In numbers: a fact is kept exactly when fifteen tokens, what was spent before it, and a quarter of its length rounded up plus two stay within the budget. |
| Context.FormatSystemPrompt | runtime/engram/src/context.rs:143-186 | The prompt is its tags around each tier's lines, with no section for a tier that has none. |
| Context.PromptOfOne | runtime/engram/src/context.rs:143-186 | The prompt of one fact, letter by letter, for every text, day and tier. |
| Context.PromptNearBudget | runtime/engram/src/context.rs:284-344 | The prompt's estimate is within budget + 5 when no fact is dated, and within budget + 9 + 2n for n facts with ten-character dates. |
| Context.EmptyPromptCostsFive | runtime/engram/src/context.rs:143-186 | The empty prompt estimates to five tokens whatever the budget. |
| Context.Breakdown | runtime/engram/src/context.rs:304-313 | The breakdown counts each tier's included facts. |
| Context.TierCountsAddUp | runtime/engram/src/context.rs:304-313 | The tiers' counts add up to the number of facts. |
| Context.TierCostsAddUp | runtime/engram/src/context.rs:304-313 | Their costs add up to the cost of all. |
| Context.TierDatesAddUp | runtime/engram/src/context.rs:143-186 | So do their dated facts, which the prompt's bound charges for. |
| Context.Build | runtime/engram/src/context.rs:270-331 | The block holds the greedy choice, given in numbers, from the tier order; included and omitted add up; the token bound holds. |
| Condition.FindFirstOp | runtime/core/src/condition.rs:118-132 | Finds the first operator, or nothing exactly when there is none. |
| Condition.DottedSplits | runtime/core/src/condition.rs:195-214 | Splitting a path undoes joining dot-free segments. |
| Condition.ResolvePath | runtime/core/src/condition.rs:195-214 | The walk finds what descending segment by segment finds. |
| Condition.ResolveIff | runtime/core/src/condition.rs:195-214 | A value is found exactly when a walk of single steps leads to it: to a member of the segment's name, or to the item at the position the segment names. |
| Condition.ParseIndexIff | runtime/core/src/condition.rs:207-210 | A segment names a position exactly when it is its decimal form after any zeros and an optional plus, within 64 bits. |
| Condition.TrimIff | runtime/core/src/condition.rs:53-57 | Trimming cuts all the white space at both ends and nothing else. |
| Condition.AcceptsTheGrammar | runtime/core/src/condition.rs:53-81 | Registration accepts exactly the expressions of the grammar. |
| Condition.EvaluatesTheGrammar | runtime/core/src/condition.rs:99-190 | An accepted expression has one reading and evaluates to its meaning in every state. |
| Condition.BarePathIs | runtime/core/src/condition.rs:216-230 | A bare path is true exactly when something stands at it that is none of null, false, 0, 0.0, "", [] and {}. |
| Condition.ComparisonIs | runtime/core/src/condition.rs:135-173 | A comparison holds exactly when what stands at the path is, or is not, the literal, an absent value standing for null. |
| Condition.BooleansAgree | runtime/core/src/condition.rs:99-190 | Wherever a boolean stands, the bare path, the path `== true` and the negation of the path `!= true` agree. |
| Condition.RejectedTrueIff | runtime/core/src/condition.rs:135-190 | A rejected expression is true exactly when its path has an empty segment, the rest is well formed, and it is `== null` or `!=` a literal that is not null. |
| Condition.SwappedOpIsFirstIff | runtime/core/src/condition.rs:118-132 | Writing one operator for the other leaves it first exactly unless the character before makes an earlier one. |
| Condition.SwapNegates | runtime/core/src/condition.rs:165-173 | On an accepted comparison the other operator is accepted and is the exact negation. |
| Condition.PlusIsAnIndex | runtime/core/src/condition.rs:207-210 | A segment with a leading plus is an array index. |
| Secrets.Expand | runtime/api/src/secrets.rs:224-252 | The rewriting loop ends and computes the one-pass substitution of the original; inserted text is not read again. |
| Secrets.FirstIsFilled | runtime/api/src/secrets.rs:224-252 | The first placeholder is replaced by its value, or stays as written without one, and the rest is expanded on its own. |
| Secrets.PiecesJoin | runtime/api/src/secrets.rs:224-252 | Cutting a text at its placeholders loses nothing. |
| Secrets.FirstIsFirst | runtime/api/src/secrets.rs:228-231 | The placeholder found is the first, up to the nearest brace. |
| Secrets.UnresolvedSurvive | runtime/api/src/secrets.rs:243-245 | With nothing to resolve the text is unchanged. |
| Secrets.OnlyOccurringNamesMatter | runtime/api/src/secrets.rs:224-252 | The result depends only on the names that occur in the original. |
| Secrets.ExpandKeepsPaths | runtime/api/src/secrets.rs:255-270 | A document keeps its paths, each with its expanded value. |
| Secrets.LeavesAreExpanded | runtime/api/src/secrets.rs:255-270 | Every string of a document is expanded and every null, boolean and number is as it was. |
| Retry.DelayForAttempt | runtime/core/src/retry.rs:69-89 | The delay never exceeds the cap, and only an overflowing linear product gives none. |
| Retry.FixedAndLinearDelays | runtime/core/src/retry.rs:69-89 | Attempt 0 does not wait; fixed mode waits the initial delay and linear mode its multiple by the attempt, up to the cap. |
| Retry.FactorIs | runtime/core/src/retry.rs:76-79 | The truncated factor doubles to 2^31, is zero for 32 attempts, then 2^32 - 1. |
| Retry.ExponentialDelays | runtime/core/src/retry.rs:69-89 | Exponential mode is capped doubling up to attempt 32, zero to 64, then constant. |
| Retry.DoublesIff | runtime/core/src/retry.rs:69-89 | It is the capped doubling exactly for attempts up to 32, a zero delay or cap, or a cap already reached past 64. |
| Retry.DelaysGrow | runtime/core/src/retry.rs:69-89 | Up to attempt 32 delays do not shrink. |

## Left out

- Commits.ReleasedResultIsCovered: covers results reported under a lease whose fence the engine handed out; of a fence that was computed before the claim gate answered, `RunSafety.CompletionCoversThePayloadIff` says what is left.
- StrandingTraces.NoStrandedNode: asks of the writes that are half of one that each met its safeguard when it landed; that this is exactly what it takes is `StrandingTraces.TraceStrandsNothingIff`. A dispatch begun and not finished is named as the exception.
- Backend.StateBackend.ClaimWorkItem: does not model a lease epoch leaving 32 bits; an item claimed 2^32 times is not claimable in the model.
- Backend.StateBackend.HeartbeatLease: does not model the lease clock; a lease may expire at any moment instead.
- Routes.GuardItem: does not model agent cards, autonomy limits or the per-call check of a tool dispatch, which can refuse or hold more.
- Routes.GateClaimedItem: does not model the two arms only a hand-enqueued item reaches, no execution record and payload coordinates that disagree.
- Dedup.FactStore.OpDedup: does not model a store error that ends the pass early, and takes scores as real numbers.
- Condition.AcceptsTheGrammar: the JSON parser is a parameter, so which literals there are is not stated.
- Graph.GraphStore.Neighbors: the search is one step of the store; rows written between its queries are not modelled.
- The unfenced completion, `/fail`, `POST /work-items`, external events and the in-process worker: separate, non-atomic writes, over which the protocol's invariants are not claimed. Of the worker its start event is an action.
- Which branches are dead: the scheduler's skip may pass over any node it read as neither finished nor scheduled. The fold also reads cancelled nodes, an event no code writes.
- The paused-to-running flip is an action of the store but not a step of `SubmitApproval`, because nothing pauses a run.
- The rest of the guard (agent cards, autonomy limits, the per-call check of a tool dispatch). Its refusals can only refuse more. Its approvals are another path: a card or an autonomy limit can gate a node the policy permits, and a tool dispatch raises requests of its own that bind the calls (runtime/workers/src/dispatch_guard.rs:550). What `RunSafety` says of the requests in a log is said of those the policy's gate raised.
- The in-memory and Postgres state backends: the SQLite transactions are modelled.
- Queue types, retry times and the order in which a claim picks: the candidate is a parameter.
- Snapshots, state patches, tool effects, idempotency keys, budgets and workflow segments: they read the log and do not change the claims made about it.
- Audit retention and queries: a purged log is not a chain from its start.
- Enrichment of audit entries from the event and the request: it happens before sealing, on values the seal takes as given.
- A failed append that was nevertheless durable, and a call cancelled in between: an append either stored its row or reported an error.
- Markdown and raw context formats, confidence decay, promotion, and the model-driven consolidation steps with their call budget: easy, or arithmetic on floats.
- Deleting by scope in the graph, entity search, and the calendar day that decides whether a fact's date is shown.
