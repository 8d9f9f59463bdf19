# Verified model of the resumable batch pipeline

A batch gateway runs files of inference requests as durable batches. One row per batch
carries its owner, a fencing epoch, a lease, a recovery counter and a status document; one
entry row per input line carries that line's progress. Processors, their zombies, a
reconciler and the API server act on these rows concurrently, and results arrive on durable
deliveries that must be acknowledged. This project models that machinery and proves what it
keeps over every run.

How the pieces fit together:

- `BatchTypes`, `Statements`: the rows, and every SQL statement as a guarded atomic step.
  SHA-256 digests and name-based UUIDs (section 5.5 of RFC 9562) are free constructors, so
  they are injective. Durations are milliseconds, truncated to seconds where the driver does.
- `BatchStore`: the same statements as methods that update one row object in place.
- `Ownership`: theorems about every run of statements with arbitrary arguments.
- `System`: all actors together. A step is one atomic effect: a statement, a create-only PUT
  (`If-None-Match: *`, section 13.1.2 of RFC 9110), a read, an acknowledgement. A step whose
  guard fails changes nothing, and a run is any sequence of steps, so every theorem about
  `After(Init(...), steps)` covers every interleaving, crash and zombie.
- `Delivery`, `Integrity`, `Lifecycle`, `Budget`, `Startup`, `Manifest`, `Guarantees`:
  invariants of that system and what follows from them.
- `ResultStore`, `Checkpointer`, `Router`, `Pending`, `Dispatch`, `Execution`, `Events`: the
  in-process pipeline, with classes where the code mutates objects and state machines
  where it is concurrent.
- `Artifacts`, `Finalizer`, `Finalizers`, `FinalizeJob`: assembly of the result files,
  crash-idempotent finalization, also with finalizers side by side, and the fenced
  terminal write.
- `Ingestion`, `PlanFile`, `Planner`, `PlanSource`, `Resume`, `CountingReader`: from the
  uploaded file to the requests a resumed run dispatches.
- `Pickup`, `Cancel`, `Reconciler`: what a claim does with a row that is not activated, the
  API cancel, and the triage of orphaned rows, each also as a run of `System`.

Properties that do not hold of the code as it is, and the condition, exact unless said
otherwise, under which they do:

- A terminal batch status is not always final. A pickup that reads the row after another
  processor took it gets that processor's epoch, and its plain terminal write replaces a
  completed status (`StalePickupOverwritesCompleted`) or lands on an activated row, which
  the owner's announcement then revives (`AnnouncementRevivesExpired`). A startup claim
  beyond the recovery budget fails the row it reads back, even one cancelled and released
  meanwhile (`ExhaustedClaimOverwritesCancelled`). `TerminalChangesIff` and
  `TerminalStaysIff` say exactly which steps and runs change a terminal row. None does if
  no fresh pickup and no startup claim reads the row of another claim (`TerminalIsFinal`);
  the claim returns its epoch, so they can tell.
- Recovery accepts the entry set if and only if no failed result was committed to an entry
  whose dispatch was never marked (`AgreementExact`). A failed mark, a line that no longer
  parses or a cancellation commits such a result (`UnsubmittedErrorBreaksRecovery`).
- Re-finalization with another not-executed code is refused if and only if an entry was left
  open (`RefinalizeWithOtherCode`, `NotExecutedDiverges`).
- A cancel can strand a row that nobody picks up. One read at epoch zero is not fenced
  (`UnfencedCancelStrands`); its write strands the row if and only if the row is in the
  queue at that instant (`StrandsIffQueued`). A fenced one does so if and only if the row was
  in the queue when it was read (`FencedCancelStrandsIff`).
- The startup requeue can take a batch from a processor that holds a running lease
  (`StartupRequeueDisplacesOwner`), if and only if the epoch it read is not the one it
  claimed and the fence holds (`DisplacementExact`).
- The pending set wakes one waiter, and the code has one; of two that overlap one would hang
  (`TwoWaitersLoseAWakeup`, `NoLostWakeup`).
- Events can reach a subscriber out of id order (`OutOfOrderDelivery`), if and only if one
  becomes visible after a larger id was sent to it or drained for it
  (`InOrderWithoutGaps`, `NothingLate`).
- Plan entries tile the input if and only if every accepted line is shorter than 2^32 bytes
  (`TilesIffShort`).
- Which limit an oversized upload is reported for depends on how it is split into reads, if
  and only if the line limit is exceeded within the bytes allowed (`KindDependsOnSplit`);
  whether it is accepted does not (`ReadAll`).

## Model

| member | source | states |
|---|---|---|
| BatchStore.ResumableStore.PQDequeue | internal/database/postgresql/batch_queue.go:127-186 | exactly a queued row is claimed with attempts zero and no lease, and a handed back activated one with its attempts kept and a lease of whole seconds; owner and epoch change, nothing else does |
| BatchStore.ResumableStore.PQClaimOwned | internal/database/postgresql/batch_queue.go:191-204 | exactly an unfinished row of the claimant is claimed again, at the cost of one epoch and one attempt and nothing else |
| BatchStore.ResumableStore.PQEnqueue | internal/database/postgresql/batch_queue.go:70-122 | exactly a row owned at that epoch in the expected unfinished status and not activated goes back to the queue as validating, with its attempts; an empty processor is refused and anything else a conflict |
| BatchStore.ResumableStore.PQDelete | internal/database/postgresql/batch_queue.go:237-268 | exactly an unowned, not activated, validating row is cancelled, with the time and a new epoch |
| BatchStore.ResumableStore.ActivateResumableBatch | internal/database/postgresql/batch_resumable.go:84-152 | exactly the owner of a validating row without entries inserts a non-empty set of distinct entries, undispatched, with status, flag and lease in one statement; conflicts and refused arguments told apart |
| BatchStore.ResumableStore.RenewResumableBatchLease | internal/database/postgresql/batch_resumable.go:157-176 | the lease is extended if and only if the row is held: owned at the epoch under a running lease, activated, unfinished |
| BatchStore.ResumableStore.BackfillSubmitter | internal/database/postgresql/batch_resumable.go:214-221 | exactly the in-flight entries without a submitter get one |
| BatchStore.ResumableStore.RequeueResumableOrphan | internal/database/postgresql/batch_resumable.go:184-226 | exactly an activated unfinished row of that owner and epoch, and with a lapsed lease if that is asked for, loses owner and lease, gains an epoch, an attempt only if asked for, and the submitters of its in-flight entries; otherwise nothing changes |
| BatchStore.ResumableStore.FinalizeResumableBatch | internal/database/postgresql/batch_resumable.go:233-286 | under owner, epoch, flag, running lease and expected status the document is replaced and flag and lease cleared; without them success means the very document is already there |
| BatchStore.ResumableStore.EntryNotUpdatable | internal/database/postgresql/batch_resumable.go:373-393 | a zero-row entry write is a duplicate only for the current owner and epoch of a terminal entry, else a conflict |
| BatchStore.ResumableStore.MarkEntryInFlight | internal/database/postgresql/batch_resumable.go:304-320 | exactly an open entry of a held row becomes in flight with one attempt more and this submitter, and no other entry changes; a terminal one is a duplicate only for the current owner |
| BatchStore.ResumableStore.CheckpointEntryResult | internal/database/postgresql/batch_resumable.go:325-369 | exactly an open entry of a held row takes the terminal status, result and code, and no other entry changes; duplicates, conflicts and refused statuses told apart |
| BatchStore.ResumableStore.DBUpdate | internal/database/postgresql/batch_db.go:180-203 | the document is replaced if and only if the given epoch, document and flag match, an epoch of zero without a bump matching any; only the epoch may change with it |
| BatchStore.ResumableStore.DBUpdateProgress | internal/database/postgresql/batch_db.go:216-238 | only the counts change, to those given, and only of an unfinished row at that epoch |
| BatchStore.ResumableStore.HasOpenEntryByRequest | internal/database/postgresql/batch_resumable.go:522-533 | true if and only if some entry of the request is not terminal |
| Ownership.EpochHistory | internal/database/postgresql/batch_queue.go:86-156 | over every run epochs and the clock never fall and one epoch has one owner |
| Ownership.FencingHistory | internal/database/postgresql/batch_resumable.go:72-78 | over every run the marks, checkpoints, renewals and finalizations that took effect have non-decreasing epochs, and those of one epoch come from one processor |
| Ownership.DisplacedNeverWrites | internal/database/postgresql/batch_resumable.go:161-193 | after any ownership change no statement carrying an earlier epoch of the row ever takes effect |
| Ownership.FirstResultWins | internal/database/postgresql/batch_resumable.go:325-369 | over every run a terminal entry keeps status, key, size, digest and error code for good, and every entry its identity |
| Ownership.ActivatedOnce | internal/database/postgresql/batch_resumable.go:104-138 | over every run at most one activation takes effect |
| Ownership.EntriesChangeByOwner | internal/database/postgresql/batch_resumable.go:304-369 | an entry changes status only through a mark or checkpoint of the row's own epoch and owner under a running lease |
| Ownership.SubmittersAlwaysKnown | internal/database/postgresql/batch_resumable.go:209-222 | over every run an in-flight entry names its submitter, so the requeue's backfill changes nothing |
| Ownership.LeaseShapeAlways | internal/database/postgresql/batch_queue.go:146-150 | over every run with arbitrary arguments a lease is set if and only if the row is activated and owned |
| Ownership.LeaseShields | internal/gc/reconciler/reconciler.go:276-311 | an unexpired lease, kept up by renewals, makes every wedged-owner requeue a no-op until the database clock passes it |
| Delivery.RequestStable | internal/database/postgresql/batch_resumable.go:304-369 | no statement undoes a request's mark or result, or moves its entry |
| Delivery.CallSettles | internal/processor/worker/result_store.go:76-119 | a checkpoint call reports its result accounted for only when the entry is terminal, whatever happened between its lookup, its PUTs, its commit and its disambiguation |
| Delivery.DeliveryAlways | internal/processor/pipeline/result_checkpointer.go:78-138 | in every reachable state every acknowledged or cleared delivery belongs to a terminal entry |
| Guarantees.NoResultLost | internal/processor/pipeline/result_router.go:177-223 | in every reachable state an acknowledged delivery has a terminal entry whose object is intact until finalization; the delivery of an open entry is never acknowledged |
| Guarantees.EveryDeliveryCanSettle | internal/processor/pipeline/result_checkpointer.go:78-138 | in every reachable state, whatever crashed before, a delivery can still be acknowledged: at once if its entry is terminal, and by committing it if some processor holds the row |
| Guarantees.AcknowledgedIff | internal/processor/pipeline/result_router.go:119-230 | a step acknowledges a delivery if and only if it is that of an accounted call or of a checked residue, and no step takes one back |
| Guarantees.UnfinishedBatchIntact | internal/processor/worker/finalizer_resumable.go:442-461 | in every reachable state, stale pickups and zombies included, while a batch is not terminal every terminal entry names an existing object of the recorded size and digest |
| Guarantees.EntriesAscend | internal/database/postgresql/batch_resumable.go:471-498 | in every reachable state the entries are in strictly ascending ordinal order, as the manifest was |
| Guarantees.EntrySetFrozen | internal/processor/worker/finalizer_resumable.go:307-375 | once every entry is terminal the entry set never changes again |
| Guarantees.EveryIncarnationAgrees | internal/processor/worker/finalizer_resumable.go:395-398 | from then on every incarnation derives the same artifacts and counts, whatever state it assembles from and whatever code it uses |
| Guarantees.RequestsDistinct | internal/database/postgresql/batch_resumable.go:110-123 | in every reachable state a request has at most one entry |
| Guarantees.DeliveryCompletes | internal/processor/pipeline/result_checkpointer.go:78-168 | the guarantees are not empty: a reachable run in which a delivered result is stored, committed, acknowledged and finalized |
| Integrity.CallKeepsKeys | internal/processor/worker/result_store.go:138-160 | a fallback key belongs to the one call that minted it and no entry names it while that call holds it |
| Integrity.CleanupKeepsIntact | internal/processor/worker/result_store.go:105-117 | deleting a superseded fallback object deletes nothing an entry, another call or an activation refers to |
| Integrity.StoredIntact | internal/processor/worker/result_store.go:144-180 | a call that comes to hold a stored key holds exactly its line under it, whether by a fresh PUT, a verified collision or a fallback |
| Integrity.StoreAlways | internal/processor/worker/result_store.go:76-180 | store before commit: in every reachable state, until a finalization succeeded, all terminal entries, pending commits and rejected lines have their objects intact |
| Lifecycle.RowShapeAlways | internal/database/postgresql/batch_resumable.go:104-138 | in every reachable state the lease is set if and only if the row is activated and owned, an activated row has entries, and a row with entries is activated or terminal |
| Lifecycle.QueueCancelSettles | internal/database/postgresql/batch_queue.go:244-260 | cancelling in the queue takes an unowned row to a settled one |
| Lifecycle.SettledForever | internal/database/postgresql/batch_queue.go:134-150 | a settled batch is never claimed, activated, worked on, requeued or finalized again, in any run: a queued job is claimed or cancelled, never both |
| Lifecycle.FinalizedSettles | internal/database/postgresql/batch_resumable.go:233-286 | in every reachable state a finalization that reported success, by committing or by finding its own document, has settled the row for good, and a document naming a file, in the row or as a run read it, means a settled row |
| Lifecycle.TerminalChangesIff | internal/processor/worker/status_updater.go:123-155 | any step changes a terminal row, activated or not, if and only if it is a plain expired or cancelled write of a fresh run that read the row at its epoch or at zero, a failed write of a run that read this very document, the announcement of a run holding a still activated row, or an applying finalization |
| Lifecycle.TerminalStaysIff | internal/database/postgresql/batch_db.go:180-203 | over every run, from a terminal row on the row keeps every column if and only if no later step is one of those |
| Lifecycle.TerminalIsFinal | internal/database/postgresql/batch_resumable.go:244-286 | in every run in which no fresh pickup and no startup claim read the row of another claim, a terminal row never changes again in any column; resumed pickups may read what they like |
| Lifecycle.StalePickupOverwritesCompleted | internal/processor/worker/job_runner.go:519-554 | a reachable run in which a pickup that read its successor's epoch replaces a completed status |
| Lifecycle.AnnouncementRevivesExpired | internal/processor/worker/finalizer_resumable.go:80-89 | a reachable run in which such a write lands on an activated row and the owner's announcement makes the row non-terminal again |
| Lifecycle.ExhaustedClaimOverwritesCancelled | internal/processor/worker/recovery.go:160-171 | a reachable run in which the failed write of a startup claim beyond the recovery budget replaces a cancelled and released row |
| Pickup.TerminalReadOverwrittenIff | internal/processor/worker/recovery.go:105-110 | a status read as terminal is written over by a queued task if and only if it is past its deadline, and by a startup claim if and only if it is beyond the budget |
| Pickup.PickUpFresh | internal/processor/worker/worker.go:361-398 | with any interference before the write: launched, skipped, or marked expired or cancelled as deadline and status say, the mark taking exactly on a row at the epoch read |
| Pickup.RecoverOwned | internal/processor/worker/recovery.go:160-257 | with any interference before the write: failed, expired, put back or skipped as attempts, status and deadline say, each taking exactly on a row that is still as read |
| Pickup.FreshPickupIsARun | internal/processor/worker/worker.go:361-398 | whatever a fresh pickup writes is a step of the system model |
| Pickup.StartupPickupIsARun | internal/processor/worker/recovery.go:160-257 | whatever a startup claim writes is a step of the system model |
| Pickup.ClaimKnowsBudget | internal/processor/worker/recovery.go:105-116 | a startup claim is beyond the budget exactly if the attempts it gets back exceed 3 |
| Budget.BudgetAlways | internal/processor/worker/recovery.go:135-157 | in every reachable state requeues done and owed are covered by recovery_attempts, pickups are numbered in order, and a run has read at least as many attempts as its own number |
| Budget.RecoveryBudget | internal/processor/worker/recovery.go:343-368 | at most three resumed pickups of a batch ever execute, and every later one is routed to cancelled, expired or failed, in that order of precedence |
| Budget.ExecutesIff | internal/processor/worker/recovery.go:343-368 | a resumed pickup that has read its row executes if and only if no cancel is under way, the deadline has not passed and the attempts are at most 3, and is otherwise routed to a terminal status |
| Budget.ThreeRecoveriesExecute | internal/processor/worker/recovery.go:123-127 | a reachable run in which three resumed pickups execute |
| Budget.FullBudget | internal/database/postgresql/batch_queue.go:113-152 | in every reachable state, whatever claims came before, attempts are zero right after a fresh dequeue and as long as the row is at its claim |
| Budget.ActivatesWithFullBudget | internal/processor/worker/resumable_runner.go:37-62 | in every reachable state a run that read the row it claimed activates the batch with no attempt spent |
| Startup.TasksAlways | internal/processor/worker/recovery.go:76-101 | in every reachable state a startup claim's epoch belongs to its claimant, and what it read back is of that epoch or a later one |
| Startup.DisplacementExact | internal/processor/worker/recovery.go:135-157 | in every reachable state a startup requeue takes the row from a later claim if and only if the epoch it read differs from the one it claimed and the fence still holds; otherwise it hands back its own claim or nothing |
| Startup.StartupRequeueDisplacesOwner | internal/processor/worker/recovery.go:135-152 | a reachable run in which it takes an activated batch from another owner with a running lease |
| Manifest.CheckManifestIntegrity | internal/processor/worker/recovery.go:428-445 | accepts if and only if lengths, identities and the rejected set agree entry by entry |
| Manifest.AgreementExact | internal/processor/worker/recovery.go:421-445 | in every reachable state of an activated batch the check accepts if and only if no failed result was ever committed to an unmarked entry |
| Manifest.ManifestAgreement | internal/processor/worker/manifest.go:75-94 | if commits only follow successful marks, the check accepts the entry set of every reachable state |
| Manifest.UnsubmittedErrorBreaksRecovery | internal/processor/pipeline/dispatcher_pre.go:68-92 | a reachable run in which the error line of a request that was never submitted makes the check fail |
| ResultStore.FileStore.Store | internal/processor/worker/result_store.go:144-149 | create-only: an existing object is never replaced |
| ResultStore.BatchResultStore.VerifyStored | internal/processor/worker/result_store.go:165-180 | true if and only if the object could be read back and has exactly the size and digest |
| ResultStore.BatchResultStore.PutRejectedObject | internal/processor/worker/result_store.go:125-137 | success if and only if the key holds the line's bytes afterwards and, if an object was there before, it could be read back |
| ResultStore.BatchResultStore.StoreObject | internal/processor/worker/result_store.go:144-161 | whatever others store or delete between its PUT and its verification, ends with the line under the returned key and replaces nothing: the canonical key if it was free or can be read back and holds this line, else a fresh one |
| ResultStore.BatchResultStore.Checkpoint | internal/processor/worker/result_store.go:76-119 | with any statements of others between lookup and commit and any operations of others on the file store throughout: committed if and only if the fence and the open entry survived, with the line stored under the committed key, no object lost but what others deleted; it writes a fallback exactly if the canonical key holds another line or cannot be read, and deletes it exactly on a lost race |
| ResultStore.BatchResultStore.ActivateResumable | internal/processor/worker/resumable_runner.go:37-62 | rejected objects are stored before the activation, which happens if and only if each of them can be stored or verified and the row is still the run's and not activated; a failed object is an error and only a lost row a conflict |
| ResultStore.CallRefinesMethod | internal/processor/worker/result_store.go:76-119 | a call of the system model left to itself has the method's outcome and commit, with the line stored under the committed key |
| Router.Route | internal/processor/pipeline/result_router.go:177-223 | a delivery goes to exactly the jobs awaiting it; the router acknowledges only with no such job and, when the check works, if and only if no entry is open |
| Router.ResidueCheckAgrees | internal/processor/worker/broadcasters.go:25-35 | that residue check is the one the system model uses |
| Pending.PendingRequests.Store | internal/processor/pipeline/pending.go:51-55 | one pending entry per request, the latest item wins |
| Pending.PendingRequests.Enrich | internal/processor/pipeline/pending.go:85-104 | accepts a result exactly if its request is pending or it brings its own metadata, gives a response without any that of its request, and removes nothing |
| Pending.PendingRequests.Resolve | internal/processor/pipeline/pending.go:114-146 | the same verdict and metadata as Enrich, removes just that request, and signals when that empties the set |
| Pending.PendingRequests.DrainUnresolved | internal/processor/pipeline/pending.go:179-197 | empties the set, hands out each remaining request once, and signals if there was any |
| Pending.ReturnsOnlyWhenEmpty | internal/processor/pipeline/pending.go:149-163 | an uncancelled wait returns only at a moment when nothing is pending |
| Pending.NoLostWakeup | internal/processor/pipeline/pending.go:72-77 | in every interleaving in which waits do not overlap, an empty set and a blocked waiter imply a pending signal or a drain about to send one |
| Pending.WaiterReturns | internal/processor/pipeline/pending.go:149-164 | and in every such state that signal, one wakeup and one look make the waiter return |
| Pending.TwoWaitersLoseAWakeup | internal/processor/pipeline/pending.go:149-163 | a reachable state in which the second of two overlapping waits is blocked for good on an empty set |
| Checkpointer.FreshSeedRefines | internal/processor/worker/execute_pipeline.go:103-118 | seeding a fresh run with the rejected count makes its counts those of the entry set at activation |
| Checkpointer.RecoverSeed | internal/processor/worker/recovery.go:389-412 | the resume seed has the exact counts per status, exactly the terminal ids, and the submitter of each in-flight entry |
| Checkpointer.ForeignRun | internal/processor/pipeline/result_checkpointer.go:141-168 | whatever other actors do, counts that refined the entry set still do: never ahead of it, and equal while the row is at this run's epoch |
| Checkpointer.ResultCheckpointer.Checkpoint | internal/processor/pipeline/result_checkpointer.go:141-168 | not persisted if and only if there was a fault; without one counted, dropped or lost exactly as the lookup, the fence and the entry after the race say; a committed entry has the message's status and code and its key holds the line; resolved and counted accordingly |
| Checkpointer.ResultCheckpointer.Handle | internal/processor/pipeline/result_checkpointer.go:81-127 | whatever others did first, another job's result is passed over, everything after an error ignored, and any other message gets exactly that verdict and effect, acknowledged only once accounted for |
| Checkpointer.ResultCheckpointer.Drain | internal/processor/pipeline/result_checkpointer.go:78-138 | every message gets the verdict its fault, its entry and the fence call for; it accounts for nothing after the first error and returns its kind, acknowledges and resolves exactly what it accounted for, fails to persist only on a fault, ends without error if there is none and the run holds the row throughout, and its counts equal the entry set's while it does |
| Checkpointer.CountsWithinTotal | internal/processor/worker/execute_pipeline.go:103-118 | completed plus failed never exceeds the number of entries, owner or not |
| Dispatch.NeverSendsAfterClose | internal/processor/pipeline/dispatcher_pre.go:96-120 | in every reachable state of the chain no enabled step sends on a closed channel |
| Dispatch.SlotsConserved | internal/processor/pipeline/dispatcher_aimd.go:53-115 | in every reachable state the slots held equal the delegated and unanswered requests, per endpoint and globally, and every release has a matching acquire |
| Dispatch.OneResultPerRequest | internal/processor/pipeline/dispatcher_direct.go:30-77 | when the chain has closed its results every request was answered exactly once, except dropped duplicates and, only after losing ownership, discarded ones; all slots are returned |
| Dispatch.NeverStuck | internal/processor/pipeline/dispatcher_pre.go:45-120 | no deadlock: in every state of every run in which the results are not closed, some step moves a request or closes a channel |
| Dispatch.StepsRunOut | internal/processor/pipeline/dispatcher_aimd.go:53-115 | every such step decreases the number of steps left |
| Dispatch.CanAlwaysFinish | internal/processor/pipeline/dispatcher_direct.go:30-79 | so every run can be continued until the results are closed, and ends there if it keeps moving |
| Dispatch.StepsBounded | internal/processor/pipeline/executor.go:41-86 | in every run at most sixteen steps a request and five more move anything |
| Dispatch.UnparsedNeverSubmitted | internal/processor/pipeline/dispatcher_pre.go:45-120 | in every run a request whose line does not parse never leaves the pre-dispatcher except as an answer |
| Execution.Execute | internal/processor/pipeline/executor.go:41-86 | chain and drain together, in any interleaving with other actors: after a clean drain every request the chain did not give up has a terminal entry, after an error it has one or is awaited as before, if the open entries were all requested nothing is left open, and the drain is clean if no result is faulty and the run holds the row throughout |
| Dispatch.ChainAlways | internal/processor/pipeline/dispatcher_pre.go:45-120 | the invariant behind these: a closed channel has nothing left upstream, one request per loop, nothing discarded unless ownership was lost |
| Events.Channel.Offer | internal/database/postgresql/batch_event.go:384-397 | non-blocking sends accept a prefix of the rows, as long as the free capacity |
| Events.EventsAlways | internal/database/postgresql/batch_event.go:349-411 | the invariant of all interleavings of producers, subscribers, deliveries, purges and failed acknowledgements |
| Events.NoEventLost | internal/database/postgresql/batch_event.go:399-410 | every event that became visible is in the table, was purged after its expiry, or acknowledged after having been enqueued to a subscriber |
| Events.InOrderWithoutGaps | internal/database/postgresql/batch_event.go:384-397 | for every subscriber, a first delivery comes after a larger id if and only if the event became visible after a larger one had been sent to that subscriber or drained for a delivery then sent, and no other unexpired event below one sent was passed over |
| Events.OutOfOrderDelivery | internal/database/postgresql/batch_event.go:213-238 | a run in which a subscriber is sent the second event before the first |
| Events.NothingLate | internal/database/postgresql/batch_event.go:213-238 | if inserts become visible in id order nothing is late for any subscriber |
| Events.SendsOnlyToCurrent | internal/database/postgresql/batch_event.go:240-279 | every send goes to the current subscriber, on an open channel that has room for all that was drained |
| Artifacts.CountsMean | internal/processor/worker/finalizer_resumable.go:342-365 | total is the number of entries, completed that of the completed ones, and failed that of the failed and the never executed ones |
| Artifacts.OneLineEach | internal/processor/worker/finalizer_resumable.go:342-371 | every entry contributes exactly one line to exactly one artifact, in order, and there are no other lines |
| Artifacts.ArtifactsFixed | internal/processor/worker/finalizer_resumable.go:277-389 | with every entry terminal the artifacts are determined by the recorded digests alone |
| Artifacts.FlattenInjective | internal/processor/worker/finalizer_resumable.go:464-498 | a file of newline-terminated lines determines its lines |
| Artifacts.NotExecutedDiverges | internal/processor/worker/finalizer_resumable.go:477-498 | two not-executed codes give the same error artifact if and only if they are equal or every entry is terminal |
| Finalizer.ListBatchEntries | internal/database/postgresql/batch_resumable.go:471-498 | the next page after an ordinal, in ascending order |
| Finalizer.ListResumableEntries | internal/processor/worker/recovery.go:448-465 | paging by the last ordinal returns exactly the entry set |
| Finalizer.FetchResult | internal/processor/worker/finalizer_resumable.go:442-461 | returns the object if and only if it is intact |
| Finalizer.ArtifactStore.EnsureFileRecord | internal/processor/worker/finalizer.go:82-108 | stores a missing record, accepts a matching one, rejects another |
| Finalizer.ArtifactWriter.Ensure | internal/processor/worker/finalizer_resumable.go:423-438 | enters existing mode exactly when the artifact is already there |
| Finalizer.ArtifactWriter.WriteLine | internal/processor/worker/finalizer_resumable.go:412-418 | what would be written grows by the line in either mode |
| Finalizer.ArtifactWriter.VerifyExisting | internal/processor/worker/finalizer_resumable.go:531-547 | true if and only if the stored artifact is what this incarnation would write |
| Finalizer.ArtifactWriter.Commit | internal/processor/worker/finalizer_resumable.go:503-525 | commits artifact and record, or verifies them; succeeds only if nothing stored contradicts, never replaces an artifact, and a crash between its effects keeps that |
| Finalizer.FetchPage | internal/processor/worker/finalizer_resumable.go:317-340 | succeeds if and only if every terminal entry of the page is intact |
| Finalizer.Assembler.Stream | internal/processor/worker/finalizer_resumable.go:307-375 | the paged loop writes what the unpaged definition says, stops on a corrupt result, and with an empty code stops on an open entry |
| Finalizer.AssembleResumableArtifacts | internal/processor/worker/finalizer_resumable.go:277-389 | on success the output file is exactly the objects of the completed entries and of the failed ones without a code, in entry order, the error file exactly those of the failed ones with a code and the renderings of the unexecuted, none being written if no entry belongs in it, and the counts those of the entry set; it fails only on an open or corrupt entry, a contradicting artifact or a crash |
| Finalizer.FinalizeThroughCrashes | internal/processor/worker/finalizer_resumable.go:391-398 | after any number of incarnations crashed between any two effects, the next one verifies instead of failing and ends with the same bytes, ids and counts |
| Finalizers.InterleavedFinalizers | internal/processor/worker/finalizer_resumable.go:391-547 | any number of finalizers of the same entry set, every effect interleaved and any of them crashing anywhere, never store or find anything different, finish with artifact and record in place, and lose a race only to the same bytes |
| Finalizers.NextFinalizerSucceeds | internal/processor/worker/finalizer_resumable.go:391-547 | after any such interleaving a finalizer that has not begun opens, commits and records its artifact and is done |
| Finalizers.LostRaceHasWinner | internal/files_store/fs/client.go:228-249 | a finalizer loses a race only if the object was not there at the start and another finalizer has placed or verified it |
| Finalizers.FinishAfter | internal/processor/worker/finalizer_resumable.go:391-398 | after any such interleaving one more incarnation succeeds with the same artifacts, file ids and counts |
| Finalizer.RefinalizeWithOtherCode | internal/processor/worker/finalizer_resumable.go:477-498 | re-finalizing with another not-executed code succeeds if and only if every entry is terminal |
| FinalizeJob.Terminalize | internal/processor/worker/finalizer_resumable.go:135-250 | finishes if every entry may be assembled, nothing stored contradicts, it lives long enough and owner, epoch, flag, lease and expected status hold at the write; finished means a document with exactly the counts and files of the entries assembled; each failure only for its own reason, and then the row is as others left it |
| FinalizeJob.FinalizeResumableJob | internal/processor/worker/finalizer_resumable.go:62-120 | not announced if and only if flag or epoch did not match; finishes if entries, artifacts and the fence in status finalizing allow it, so always for the undisturbed owner of a running lease; finished means every entry terminal and recorded |
| FinalizeJob.RouteResumedPickup | internal/processor/worker/recovery.go:343-368 | a pickup is routed if and only if a cancel is under way, the deadline has passed or the attempts exceed 3; it then ends the batch with the status and code of the first of these reasons, if the artifacts can be assembled and the row is still as it was read |
| Ingestion.ReadNormalizedLine | internal/processor/worker/preprocessor.go:265-278 | returns the next line, terminated, or the end of the input |
| Ingestion.CopiesInput | internal/processor/worker/preprocessor.go:144-226 | the local file is the input with a final newline |
| Ingestion.FileSlices | internal/processor/worker/preprocessor.go:144-226 | the lines partition the local file at their real offsets |
| Ingestion.TilesIffShort | internal/processor/worker/planner.go:240-257 | the plan entries cover exactly their lines if and only if every accepted line is shorter than 2^32 bytes |
| Ingestion.PreProcess | internal/processor/worker/preprocessor.go:52-262 | succeeds if and only if every line parses and custom ids differ, naming the offending line otherwise; then manifest, rejected count and each model's plan are those of the lines |
| PlanFile.EntryRoundTrip | internal/processor/worker/planner.go:98-104 | decoding an encoded entry gives it back, negative offsets included |
| PlanFile.BufferRoundTrip | internal/processor/worker/plan_reader.go:31-37 | encoding a decoded 16-byte buffer gives it back |
| PlanFile.MarshalLayout | internal/processor/worker/planner.go:98-104 | the sixteen bytes spelled out: offset in two's complement, length, prefix hash, each least significant byte first |
| PlanFile.ReadPlanEntries | internal/processor/worker/plan_reader.go:40-73 | refuses a size that is no multiple of 16, else returns entries whose encoding is the file |
| PlanFile.SortByPrefix | internal/processor/worker/planner.go:204-206 | a permutation sorted by prefix hash |
| PlanFile.EqualHashesContiguous | internal/processor/worker/planner.go:190-206 | equal prefix hashes are contiguous in a sorted plan |
| PlanFile.WriteThenRead | internal/processor/worker/planner.go:193-236 | reading a finalized plan file returns a permutation of the accumulated entries, sorted by prefix hash |
| Planner.Sanitize | internal/processor/worker/planner.go:155-156 | safe characters only, and empty exactly for the empty model |
| Planner.SanitizeMeans | internal/processor/worker/planner.go:156-174 | safe characters stay as they are, and each whole run of unsafe ones becomes one underscore |
| Planner.NextFree | internal/processor/worker/planner.go:179-187 | the search for a numbered name terminates with the first free one |
| Planner.PlanAccumulator.InternModelID | internal/processor/worker/planner.go:169-188 | a safe name never handed out before: the sanitized model, or unknown if it is empty, with the first free number past the recorded one if that name is taken |
| Planner.PlanAccumulator.AccumulatePlanEntry | internal/processor/worker/planner.go:240-257 | appends to the plan of that model alone and keeps every model's name |
| Planner.PlanAccumulator.WriteModelMappings | internal/processor/worker/preprocessor.go:346-359 | the two model maps are inverse bijections |
| PlanSource.Produce | internal/processor/worker/source_planfile.go:152-194 | sends the unheld requests of all plans in order, then the held ones, or fails if an entry lies outside the file |
| PlanSource.PlansPartition | internal/processor/worker/planner.go:240-257 | the plans of all models together are exactly the accepted lines |
| PlanSource.ResumePartition | internal/processor/worker/source_planfile.go:152-194 | a resumed run sends each accepted unfinished request exactly once, nothing finished, nothing else, and those that may be recovered last |
| Resume.ResumeFromInput | internal/processor/worker/source_planfile.go:152-194 | end to end from the input bytes, through ingestion, the written plan files and the source: accepted exactly on valid input, and then each unfinished request of a registered model is sent exactly once, recoverable ones last, and nothing else |
| CountingReader.LimitedCountingReader.Read | internal/files_store/io/reader.go:39-68 | one read reports size before lines, exactly when the content so far, with its end if reached, exceeds that limit, and otherwise keeps the counts of the content |
| CountingReader.ReadAll | internal/files_store/io/reader.go:39-68 | however the stream is split it is accepted if and only if the whole content is within the limits, a reported limit is one the content exceeds, and on acceptance the counts are the content's |
| CountingReader.StreamVerdict | internal/files_store/io/reader.go:39-68 | unless both limits are exceeded with the line limit already exceeded within the bytes allowed, the report of every split is the one the content calls for |
| CountingReader.KindDependsOnSplit | internal/files_store/io/reader.go:43-58 | two splits of a content get different reports if and only if the content is of that kind |
| Cancel.MarkCancelling | internal/apiserver/batch/batch_handler.go:520-562 | with any interference, it marks if and only if the row is as last read at the instant of a write, changing the status alone; it gives up only after three attempts or on a changed status or epoch, having changed nothing |
| Cancel.HandlerIsARun | internal/apiserver/batch/batch_handler.go:444-545 | the queue removal and the cancelling write of a cancellable batch are steps of the system model, so every theorem about all runs covers them |
| Cancel.StrandedForGood | internal/gc/reconciler/reconciler.go:226-246 | over every run a stranded row stays stranded until a plain write at its epoch, and until then no claim, queue removal, re-enqueue, activation, mark, checkpoint, renewal, requeue or finalization takes effect on it |
| Cancel.StrandsIffQueued | internal/apiserver/batch/batch_handler.go:444-470 | a cancelling write strands the row if and only if the row is back in the queue at that instant |
| Cancel.FencedCancelStrandsIff | internal/apiserver/batch/batch_handler.go:444-545 | a cancel fenced on a positive epoch strands the row if and only if the row was in the queue when the handler read it, whatever happened in between and whatever the queue removal reported |
| Cancel.FencedCancelStrandsNothing | internal/apiserver/batch/batch_handler.go:444-545 | so it strands nothing if the queue removal looked at the row meanwhile and truthfully missed it |
| Cancel.UnfencedCancelStrands | internal/database/postgresql/batch_db.go:185-188 | a reachable run in which a cancel read at epoch zero strands the row |
| Reconciler.Triage | internal/gc/reconciler/reconciler.go:208-311 | with any statements between the listing and the write, triage issues exactly the decided fenced statement |
| Reconciler.TriageIsFenced | internal/gc/reconciler/reconciler.go:281-394 | stale listings change nothing, an effective triage bumps the epoch, never terminates an activated batch or displaces a live owner under a running lease, and leaves a row not activated to its live owner |
| Reconciler.LiveOwnerDisplacedIff | internal/gc/reconciler/reconciler.go:274-311 | on the row it read, an activated batch is taken from a live owner if and only if the lease has lapsed by both clocks |
| Reconciler.TriageTakesOver | internal/gc/reconciler/reconciler.go:248-311 | a dead owner's row: an activated one is requeued at the cost of an attempt, one being cancelled becomes cancelled, one past its deadline failed, any other is put back as validating, and only one without a priority is reported and left |
| Reconciler.TriageIsARun | internal/gc/reconciler/reconciler.go:208-394 | the triage of a listed row leaves the rows as a run of the system model does, so every theorem about all runs covers it |

## Left out

- One batch at a time: rows of different batches do not interact in the modelled statements, and a request id belongs to one batch.
- Row and entry deletion by the garbage collector: a deleted entry is outside the no-loss theorem.
- JSON documents: the status document is a record, request lines and error lines are parsed and rendered by function parameters, and document equality is record equality.
- The destructive result transport without acknowledgements, the recovery broadcasters' reference counts, and a router without a residue check.
- The asynchronous dispatcher, AIMD adjustment and semaphore capacity: an acquire may succeed or fail at any moment, so only conservation is stated.
- The recovery window timer and the pre-storing of recovering requests: the held requests are sent after an arbitrary pause.
- Rows whose stored specification no longer parses: such a row is failed by a plain write whatever its status.
- Liveness of a whole batch: nothing says that one eventually completes; the dispatcher chain, a waiter, a delivery and a finalizer are each shown able to.
- The reconciler's listing loop, dry-run mode and result counters, and the pod watcher.
- The HTTP part of the cancel handler and the sending of cancel events.
- Lifecycle.TerminalIsFinal: sufficient only; the exact statements are TerminalChangesIff and TerminalStaysIff.
- Ingestion.PreProcess: needs the input to be shorter than 2^63 - 1 bytes, the range of the file offsets.
- PlanFile.SortByPrefix: the library sort is modelled by an insertion sort; only sortedness and permutation are used.
- Resume.ResumeFromInput: assumes the source extracts the custom id that ingestion extracted, and needs lines of registered models to be shorter than 2^32 bytes (see TilesIffShort).
- Finalizers.InterleavedFinalizers: the finalizers derive the same artifacts, which EveryIncarnationAgrees gives once every entry is terminal.
- Artifacts.NotExecutedDiverges: assumes results and renderings are single newline-terminated lines and that a rendering shows its code.
