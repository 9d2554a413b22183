# rdq, modelled in Dafny

rdq is a retry queue. Tasks are admitted to a queue, claimed by workers under a lease with a
fencing token, run by a handler, and then succeed, are rescheduled, or are dead-lettered;
dead-lettered tasks can be listed, redriven and purged. This project models the task lifecycle,
the engine that drives it, its two storage backends, and the self-contained algorithms around
them, and proves what every run keeps.

`dafny verify dfyconfig.toml` checks everything.

## How it is built

**The contract.** `Lifecycle` states the storage interface as one relation over calls and
replies on a single map of records (`Step`). Claiming is nondeterministic in what the interface
leaves open: the order of ties and the choice of tokens. The clock is a parameter of each call, so
it may stand still, jump or go back. Attempt numbers and the timestamps of lease-expired records
are abstracted away (`Norm`), because the two backends differ in them.

**The system.** `Engine.Plan` is what a worker writes for a claimed task. `System` puts any number
of workers, operators and zombies around a store: a run is any finite sequence of submissions,
polls, handler starts, outcome writes, crashes, heartbeats, redrives, purges, sweeps, and calls
with tokens that are no longer honoured. History variables (claims ever made, invocations,
admissions) record the past without influencing it. `Invariant` proves one inductive invariant by
showing that every step changes each record in one of a few lawful ways; `Guarantees` draws the run
theorems from it. `Provenance` adds where each field of a task comes from: the last call that
concerned it. `Progress` shows that the runs exist and never get stuck, on either backend.

**The in-memory store.** `MemStore.Store` is the class with its mutable map and counters. Every
method is proved to make exactly the transformation that `MemModel` gives for its call (`AfterEnqueue`,
`AfterClaimDue`, ...), and `MemRefines` shows that each of these is a step of the contract. `MemRuns`,
`MemNumbering`, `MemRepeats` and `MemClocks` prove what holds of it in particular over runs.

**The PostgreSQL store.** `PgModel` has the two task tables, the attempt table keyed by task and
attempt number, and each statement as an operation on them; a refused constraint rolls its
transaction back and is reported as `Violation`. `PgStore.Store` runs the statements in order, with
the loops the code has, and is proved against `PgModel`. `PgRefines` and `PgClaims` prove the
relational invariant and the simulation, `PgClocks` the times it records and sweeps by. `Backends` lifts both simulations to whole runs, so
everything in `Guarantees` holds of workers over either backend.

**Paging** is proved once over keys (`Paging`) and then for both cursor forms, base64url wrapping
included; `Pages` says what a single page shows. **The algorithms** (`Glob`, `Ulid` and `UlidOrder`, `RateLimit` and `Polling`, `Backoff`, `Truncate`, `Mapping`,
`Residual` and `ResidualStable`) stand alone.

Where a promise is false of the code, the exact condition is proved instead:

- The in-memory store numbers a lease-expired attempt from `attempt_count`, which a redrive resets.
  In every reachable state a reclaim leaves a number twice exactly when the task was ever redriven
  (`MemNumbering.RunReclaim`);
  `MemRepeats.RedrivenTaskRepeats` is a run in which it does, with numbers 1, 1, 2. The PostgreSQL
  store numbers from the history and never repeats (`Backends.PgNumbering`).
- A task submitted already dead has no place in the in-memory dead-letter queue: no page lists it,
  but a filter picks it. Listing is complete for tasks with a place, and collecting ids agrees with
  the filter exactly when all matching tasks have one (`DlqServer.ByIdsIsByFilter`), which holds in
  every run (`MemRuns.RunSequenced`).
- The PostgreSQL store refuses an envelope exactly when it is dead or repeats an attempt number
  (`PgRefines.EnqueueRefused`), and an outcome write of a live claim exactly when its number is taken
  (`PgRefines.OutcomeNumbers`).
- The in-memory store redrives a repeated id repeatedly, and its count then counts picks. Picks and
  tasks agree exactly when no selected id is repeated (`MemRefines.CountAbs`); the PostgreSQL store
  takes each id once.
- A residual JSON key that equals a known field name up to case overwrites that field when the
  envelope is decoded again (`Residual.DisturbsIff`), although the design promises a lossless
  round trip. Which key lists are safe to read, write and read again is decided exactly
  (`ResidualStable.EnvelopeKeysIff`).
- A jittered delay stays inside 64 bits for every retry exactly when the highest rung stretched by
  the jitter does (`Backoff.ConvertsAlways`).
- A ULID gives its time back exactly for 48-bit times (`UlidOrder.TimeRoundTrip`).

## Model

| member | source | states |
|---|---|---|
| Invariant.StepKeepsInv | core/spi/storage.go:9-108 | every action of every worker, operator or zombie keeps the system invariant: record shapes, token ownership, claim history, job copies, invocation records and conservation |
| Invariant.ChangeKeepsRecord | core/memstore/memstore.go:153-249 | each lawful change of a record (lease, outcome, redrive) keeps its shape, its claim accounting and the justification of its status |
| Guarantees.EveryStateGood | core/spi/storage.go:9-19 | the invariant holds in every state of every run |
| Guarantees.EpochBound | core/engine/worker.go:410-458 | between two redrives a task's handler is invoked at most MaxAttempts times, in any interleaving |
| Guarantees.LifeBound | core/engine/worker.go:410-458 | in all, a task's handler is invoked at most MaxAttempts × (redrive_count + 1) times |
| Guarantees.LaterClaimsSeeMore | core/memstore/memstore.go:122-173 | within one redrive epoch a later claim sees a strictly larger attempt_count than any earlier one |
| Guarantees.OneHolder | core/memstore/memstore.go:416-425 | in every reachable state a token is honoured for at most one task |
| Guarantees.DeadTokensStayDead | core/memstore/memstore.go:161-168 | a token once spent or reclaimed is never honoured again in any continuation, even after purge and re-submission of the id |
| Guarantees.StaleCallsRefused | core/memstore/memstore.go:177-249 | a fenced call with such a token is answered stale and leaves the whole store unchanged |
| Guarantees.SpentOnce | core/memstore/memstore.go:194-249 | after one accepted outcome write the claim's token is dead for ever |
| Guarantees.OnlyFinishedTasksLeave | core/memstore/memstore.go:340-404 | an id leaves the store only by a purge while dead or a sweep while succeeded, in its own queue |
| Guarantees.Conservation | core/memstore/memstore.go:104-116 | ids admitted minus ids removed equals the sum of the four status counts |
| Guarantees.UnfinishedTasksComeDue | core/memstore/memstore.go:457-466 | every pending or in-flight task has a time from which on it is claimable |
| Guarantees.ClaimAccounting | core/memstore/memstore.go:153-173 | claims made of a record are its history length plus one if in flight, and attempt_count is the history since the last redrive |
| Guarantees.TerminalStatesJustified | core/engine/worker.go:423-510 | a task is succeeded exactly when its last attempt is a success, success appears nowhere else, and a dead task failed permanently or is out of attempts |
| Guarantees.HeldClaimSeesCurrentHistory | core/memstore/memstore.go:416-425 | while a claim is honoured the stored history is the one the worker was handed |
| Provenance.CallAsTold | core/spi/storage.go:9-108 | a task after any call is as it was unless the call concerned it (its admission, a grant, an accepted fenced call, a redrive naming it), and then every field of it is what the call says |
| Provenance.LastTold | core/spi/storage.go:9-108 | in every state of every run each task is exactly what the last action that concerned it said, and has been since |
| Provenance.LeavesIf | core/spi/storage.go:9-108 | a purge removes exactly the dead tasks it selects; apart from sweeps of succeeded tasks nothing else removes any |
| Provenance.RepliesAre | core/spi/storage.go:9-108 | when each call answers a conflict or a stale claim, and how many tasks it reports |
| Provenance.GrantsAreRipe | core/memstore/memstore.go:122-173 | a poll is granted min(limit, due) tasks, all of them due, none that came due later than one left out |
| Provenance.NoEarlyReclaim | core/memstore/memstore.go:457-466 | in any run a task in flight is granted again only once the lease that its last grant or heartbeat set has run out |
| Provenance.TaskContinues | core/spi/storage.go:9-108 | over any stretch of any run a task that stays keeps its queue, handler, body and creation time, its history grows only at the end, and its redrive count does not fall |
| Provenance.OutcomeCarried | core/engine/worker.go:410-531 | in any run an accepted outcome write of a worker leaves the task as the queue promises for the attempts spent, the route and the handler's answer, with a retry due after the backoff delay of its rung |
| Progress.MemNeverStuck | core/memstore/memstore.go:104-404 | every enabled action of the in-memory system has a next state |
| Progress.RunsGoOn | core/memstore/memstore.go:104-404 | every run of the in-memory system can be extended by any enabled action |
| Progress.PgNeverStuck | storage/postgres/claim.go:176-256 | every enabled action of the relational system has a next state: due rows to pick and new tokens to draw always exist |
| Progress.PgRunsGoOn | storage/postgres/claim.go:176-256 | every run of the relational system can be extended by any enabled action |
| Worker.Process | core/engine/worker.go:410-531 | one run of process invokes the handler exactly when attempts remain and the task routes, makes the single write that Plan names, and leaves the claim spent: one attempt appended with the times, outcome and error of this run, and the task succeeded, dead, or pending until the handler's end plus the backoff delay of this retry; or stale and unchanged |
| Worker.Outcome | core/engine/worker.go:410-531 | the write that Plan names spends the claim on any store: the task, and no other, is carried to its outcome, or nothing changes |
| Engine.RetryWaits | core/engine/worker.go:512-531 | a retry comes due after the handler finished, within the jitter band of its rung |
| Worker.Bury | core/engine/worker.go:602-626 | the terminal write of a refused or exhausted task |
| MemStore.Store.constructor | core/memstore/memstore.go:84-95 | an empty store |
| MemStore.Store.Enqueue | core/memstore/memstore.go:104-116 | idempotent within a queue, conflict across queues, otherwise admitted unchanged |
| MemStore.Store.CollectDue | core/memstore/memstore.go:122-139 | exactly the due keys of the queue, each once |
| MemStore.Store.ClaimDue | core/memstore/memstore.go:122-173 | the first due tasks up to the limit in (next_attempt_at, id) order, leased with successive tokens |
| MemStore.Store.ClaimNext | core/memstore/memstore.go:153-171 | one claim: an expired lease counted first, then the next token and a fresh lease |
| MemStore.Store.ClaimAll | core/memstore/memstore.go:152-172 | the claiming loop claims its tasks one after another, expired leases counted first |
| MemStore.Store.ExtendLease | core/memstore/memstore.go:177-188 | renews the lease of a live claim, refuses a stale one |
| MemStore.Store.Reschedule | core/memstore/memstore.go:194-209 | appends the attempt and returns the task to pending, fenced |
| MemStore.Store.Complete | core/memstore/memstore.go:212-227 | appends the attempt and marks the task succeeded, fenced |
| MemStore.Store.DeadLetter | core/memstore/memstore.go:231-249 | appends the attempt and marks the task dead with the next dead-letter number, fenced |
| MemStore.Store.Get | core/memstore/memstore.go:305-314 | the envelope of the task as the contract holds it; absent exactly when there is none |
| MemStore.Store.SelectDead | core/memstore/memstore.go:436-454 | picks each dead task as often as the selector names it |
| MemStore.Store.Redrive | core/memstore/memstore.go:319-337 | the picked tasks pending with a fresh budget and their history kept, and the number of picks |
| MemStore.Store.Purge | core/memstore/memstore.go:340-349 | the picked tasks removed, and the number of picks |
| MemStore.Store.PurgeSucceeded | core/memstore/memstore.go:389-404 | exactly the succeeded tasks finished before the cut-off removed and counted |
| MemStore.Store.CollectDead | core/memstore/memstore.go:266-278 | exactly the matching dead records past the cursor, each once |
| MemStore.Store.DLQList | core/memstore/memstore.go:257-301 | the page and the cursor MemPaging.Lists specifies, or a stale cursor |
| MemModel.ClaimManyPointwise | core/memstore/memstore.go:153-172 | claiming a list of distinct tasks claims each on its own with its own next token and touches no other |
| MemRefines.ClaimDueExact | core/memstore/memstore.go:122-173 | exactly min(limit, due) due tasks, in order, none left behind before one taken, distinct next tokens, one LEASE_EXPIRED record per reclaimed lease, every other record untouched |
| MemRefines.ClaimsLongestDue | core/memstore/memstore.go:122-151 | a claimed task is due and came due before, or at the same time with a smaller id than, any due task that was left |
| MemRefines.LeasesHonoured | core/memstore/memstore.go:152-173 | every lease a claim hands out is honoured by the store, carries the task as held and runs from now |
| MemRefines.CountAbs | core/memstore/memstore.go:436-454 | the reply counts tasks exactly when no selected id is repeated |
| MemRefines.FencedRefines | core/memstore/memstore.go:177-249 | heartbeats and outcome writes are fenced steps of the contract |
| MemRefines.EnqueueRefines | core/memstore/memstore.go:104-116 | admission is a step of the contract |
| MemRefines.RedriveRefines | core/memstore/memstore.go:319-337 | redriving is a step of the contract |
| MemRefines.PurgeRefines | core/memstore/memstore.go:340-349 | purging is a step of the contract |
| MemRefines.SweepRefines | core/memstore/memstore.go:389-404 | sweeping is a step of the contract |
| MemRefines.ClaimRefines | core/memstore/memstore.go:122-173 | claiming is a step of the contract |
| MemRefines.MemStoreRefines | core/memstore/memstore.go:104-404 | every call of the in-memory store is a step of the contract |
| MemRefines.TokensDistinct | core/memstore/memstore.go:161-168 | different claim numbers give different tokens |
| MemNumbering.ReclaimNumbering | core/memstore/memstore.go:478-490 | a reclaim leaves the history numbered 1..n exactly when it was and attempt_count is its length |
| MemNumbering.ReclaimRepeats | core/memstore/memstore.go:478-490 | under the numbering law a reclaimed history has a number twice exactly when the task was ever redriven |
| MemNumbering.RunNumbering | core/memstore/memstore.go:122-249 | in every state of every run each attempt is numbered by its position unless it records an expired lease, a task never redriven is numbered 1..n, and numbers are unique exactly when the history is numbered 1..n |
| MemNumbering.RunReclaim | core/memstore/memstore.go:153-172 | in any state of any run, a reclaim leaves a number twice exactly when redrive_count is positive |
| MemNumbering.EngineWellNumbered | core/engine/worker.go:448-458 | over the in-memory store too, an outcome of an honoured claim is numbered one past the stored history |
| MemRepeats.RedrivenTaskRepeats | core/memstore/memstore.go:478-490 | for any fresh task there is a run (submit, claim, dead-letter, redrive, claim, two lapsed leases) whose attempts are numbered 1, 1, 2 |
| MemRuns.RunSequenced | core/memstore/memstore.go:231-249 | in every state of every run all dead records have a place in the queue, each its own |
| MemRuns.RunListingComplete | core/memstore/memstore.go:257-301 | listing from any state of any run, with any calls in between, is in order of arrival and returns every task that stays exactly once |
| MemRuns.RunByIdsIsByFilter | server/http/dlq.go:156-168 | in any state of any run redriving or purging the collected ids is redriving or purging by the filter |
| MemClocks.CompleteThenSweep | core/memstore/memstore.go:212-404 | after an accepted completion at a time, a sweep of the queue removes the task exactly when that time is before the cut-off |
| MemClocks.CompletionClock | core/memstore/memstore.go:212-227 | in any run a succeeded task carries as its end the clock of its last accepted completion |
| MemClocks.RunSweep | core/memstore/memstore.go:389-404 | in any run a sweep takes a succeeded task exactly when it is of the queue and its last completion was before the cut-off |
| MemClocks.ClaimClock | core/memstore/memstore.go:153-171 | in any run a task in flight holds the token and the claim time of the poll last granted it |
| MemClocks.RunReclaimRecord | core/memstore/memstore.go:478-490 | in any run a reclaim appends exactly one lease-expired attempt, begun at the clock of the poll whose claim was lost and ended now |
| PgStore.Store.constructor | storage/postgres/migrations/0001_init.up.sql:19-95 | empty tables |
| PgStore.Store.InsertAttempt | storage/postgres/mutations.go:183-195 | inserts unless the pair of task and number is taken |
| PgStore.Store.Enqueue | storage/postgres/enqueue.go:44-107 | looks in both tables, inserts row and history together or not at all |
| PgStore.Store.ExtendLease | storage/postgres/mutations.go:28-37 | renews the lease of a live claim, refuses a stale one |
| PgStore.Store.Reschedule | storage/postgres/mutations.go:42-65 | update and attempt row commit together; a taken number rolls both back |
| PgStore.Store.Complete | storage/postgres/mutations.go:69-81 | update and attempt row commit together; a taken number rolls both back |
| PgStore.Store.DeadLetter | storage/postgres/mutations.go:89-141 | the row moves to the dead-letter table with its error type, the attempt is recorded, or everything is rolled back |
| PgStore.Store.PickDue | storage/postgres/claim.go:126-141 | due rows up to the limit, none left out that sorts before one taken, ties in any order |
| PgStore.Store.Flip | storage/postgres/claim.go:139-154 | the picked rows in flight with a new lease and token, the others unchanged |
| PgStore.Store.RecordExpiries | storage/postgres/claim.go:215-235 | one LEASE_EXPIRED row numbered MAX + 1 and one counted attempt per reclaimed row |
| PgStore.Store.ClaimDue | storage/postgres/claim.go:176-256 | the statements together make one claim step, and each claim carries the token granted and the task the contract holds, with its up-to-date history |
| PgStore.Store.Redrive | storage/postgres/dlq.go:171-210 | the selected rows move back with a fresh budget; attempts untouched |
| PgStore.Store.Purge | storage/postgres/dlq.go:216-237 | the selected rows and their attempts removed and counted |
| PgStore.Store.PurgeSucceeded | storage/postgres/stats.go:59-81 | exactly the succeeded rows whose last attempt finished before the cut-off removed with their attempts |
| PgStore.Store.Get | storage/postgres/dlq.go:142-163 | the envelope from whichever table holds the id, which is the task the contract holds; absent exactly when neither does |
| PgStore.Store.DLQList | storage/postgres/dlq.go:52-137 | the page and the cursor PgPaging.Lists specifies, or a stale cursor |
| PgStore.NextNumber | storage/postgres/claim.go:163-167 | one past the greatest number, 1 for none |
| PgStore.LoadAttempts | storage/postgres/claim.go:97-119 | the attempt rows in ascending order of their numbers |
| PgModel.HistoryAppend | storage/postgres/claim.go:97-119 | a row numbered past all others is the new end of the history |
| PgRefines.OutcomeNumbers | storage/postgres/mutations.go:112-195 | any outcome write of an honoured claim is refused, changing nothing, exactly for the numbers 1..n of the history, and leaves the history numbered exactly for n + 1 |
| PgRefines.EnqueueRefused | storage/postgres/enqueue.go:44-107 | any envelope with a new id is refused, changing nothing, exactly when it is dead or repeats an attempt number |
| PgRefines.NextNo | storage/postgres/claim.go:163-167 | MAX + 1 is one past a gap-free history |
| PgRefines.FoundAbs | storage/postgres/mapping.go:138-175 | a task read back from its row and attempts is the contract's task, field by field, from either table |
| PgRefines.EnvelopeAbs | storage/postgres/claim.go:236-256 | the task handed out with a claim is the contract's task |
| PgRefines.EnqueueThenGet | storage/postgres/enqueue.go:44-123 | an admitted envelope with attempts in order is read back unchanged |
| PgRefines.HistoryInOrder | storage/postgres/claim.go:97-119 | rows numbered 1..n are read back in that order |
| PgRefines.ExtendRefines | storage/postgres/mutations.go:28-37 | the heartbeat commutes with the abstraction |
| PgRefines.RescheduleRefines | storage/postgres/mutations.go:42-65 | rescheduling commutes with the abstraction, keeps the invariant and is not refused |
| PgRefines.CompleteRefines | storage/postgres/mutations.go:69-81 | completing commutes with the abstraction, keeps the invariant and is not refused |
| PgRefines.BurialRefines | storage/postgres/mutations.go:89-141 | dead-lettering commutes with the abstraction, keeps the tables disjoint and the error type faithful |
| PgRefines.EnqueueRefines | storage/postgres/enqueue.go:44-123 | for any envelope: a known id, or an envelope not dead with attempts in ascending order, is admitted as the contract says; an admitted one keeps the relational invariant exactly when it is not in flight and its attempts carry the numbers 1..n |
| PgRefines.AdmissibleRefines | storage/postgres/enqueue.go:44-123 | a pending or succeeded envelope with attempts numbered 1..n in order, hence a fresh one, does both |
| PgRefines.RevivedRecord | storage/postgres/dlq.go:180-196 | the row a redrive inserts, with the untouched attempts, is the contract's redriven record of the dead one |
| PgRefines.RedriveRefines | storage/postgres/dlq.go:171-210 | redriving commutes with the abstraction and keeps the history and its numbering |
| PgRefines.PurgeRefines | storage/postgres/dlq.go:216-237 | purging commutes with the abstraction and leaves no attempt without an owner |
| PgRefines.SweepRefines | storage/postgres/stats.go:59-81 | sweeping is a sweep of succeeded tasks and keeps the invariant |
| PgClaims.ClaimRefines | storage/postgres/claim.go:126-256 | claiming commutes with the abstraction and keeps the invariant |
| PgClaims.PgStoreRefines | storage/postgres/claim.go:126-256 | every call an engine makes is a step of the contract, keeps the relational invariant and never violates the unique constraint |
| Backends.MemRunsRefine | core/memstore/memstore.go:104-404 | every run over the in-memory store is a run of the contract |
| Backends.EngineNumbersPastHistory | core/engine/worker.go:448-458 | an outcome of an honoured claim is numbered one past the stored history |
| Backends.PgRunsRefine | storage/postgres/claim.go:126-256 | every run over the relational store is a run of the contract |
| Backends.PgNumbering | storage/postgres/claim.go:156-167 | in every reachable state the tables are disjoint, attempts have owners and are numbered exactly 1..n, redriven tasks included |
| Backends.PgNoViolation | storage/postgres/mutations.go:112-166 | no write of any run is refused by UNIQUE(task_id, attempt_no) |
| Backends.PgErrorTypeFaithful | storage/postgres/mutations.go:112-141 | in every reachable state the dead-letter error_type is the final attempt's error type |
| PgClocks.SweepExact | storage/postgres/stats.go:59-81 | a sweep takes exactly the succeeded tasks of its queue whose latest recorded finish, or creation if there is none, is before the cut-off |
| PgClocks.CompleteThenSweep | storage/postgres/stats.go:59-81 | after an accepted completion a sweep takes the task exactly when this attempt and every earlier one finished before the cut-off |
| PgClocks.RunSweep | storage/postgres/stats.go:59-81 | in any run a sweep takes a succeeded task exactly when it is of the queue and its latest finish, not earlier than that of the handler run that completed it, is before the cut-off |
| PgClocks.ReclaimRecord | storage/postgres/claim.go:215-235 | a reclaim appends one lease-expired attempt to the history a reader sees, numbered next, begun when the lease lapsed and ended now, and changes nothing else but the lease and the count |
| PgClocks.RunReclaimRecord | storage/postgres/claim.go:215-235 | in any run that attempt begins at the deadline set by the last grant or heartbeat, which has passed |
| PgClocks.RunHistories | storage/postgres/claim.go:97-119 | in every reachable state a task is read back with its attempts numbered 1..n in order |
| Paging.SessionComplete | core/memstore/memstore.go:257-301 | keyset paging over changing views lists in strictly increasing order, invents nothing, and lists every key that stays exactly once |
| Base64.RoundTrip | core/memstore/memstore.go:525-548 | unpadded URL-safe base64 decodes to the bytes it encodes |
| Base64.SymbolIs | core/memstore/memstore.go:525-548 | the digits are those of the URL-safe alphabet |
| Base64.SameGroup | core/memstore/memstore.go:525-548 | three bytes and their four digits are the same 24-bit number |
| MemPaging.CursorRoundTrip | core/memstore/memstore.go:523-548 | a cursor decodes to the number it encodes |
| MemPaging.CallKeepsSequence | core/memstore/memstore.go:231-249 | every call keeps dead records on distinct numbers and never hands an old number to another task |
| MemPaging.ListSessionComplete | core/memstore/memstore.go:257-301 | listing to the end with any calls in between returns every task that stays exactly once, in order of arrival, if it has a dead-letter number, and never if it was submitted dead and has none |
| PgPaging.CursorRoundTrip | storage/postgres/dlq.go:285-315 | a cursor decodes to the time and id it encodes, also when the id holds the separator |
| PgPaging.ListSessionComplete | storage/postgres/dlq.go:52-137 | listing to the end over arbitrarily changing tables returns every task that stays exactly once, in (dead_lettered_at, id) order |
| Pages.MemPage | core/memstore/memstore.go:257-301 | a page holds the first min(size, matching) matching dead tasks past the cursor in order of arrival, 100 by default, with a next cursor exactly if some are left; each entry is the stored task, without its attempts unless asked for |
| Pages.PgPage | storage/postgres/dlq.go:52-137 | the same in (dead_lettered_at, id) order, the filter judged by the task a reader gets and each entry being that task |
| Pages.CursorsKeepApart | core/memstore/memstore.go:523-548 | what a cursor of either store encodes, and that the other store takes it for stale |
| DlqServer.CollectByFilter | server/http/dlq.go:216-233 | on a quiescent store the collected ids are exactly the matching ones with a place in the queue, in order of arrival |
| DlqServer.NoneRepeated | server/http/dlq.go:216-233 | those ids are the matching tasks with a place, none twice |
| DlqServer.ByIdsIsByFilter | server/http/dlq.go:156-168 | redriving or purging the collected ids gives the same store and count as doing it by the filter, exactly when every matching task has a place |
| DlqServer.SubmittedDead | core/memstore/memstore.go:104-116 | a task submitted dead is listed on no page and picked by the filter |
| DlqServer.ActionDoes | server/http/dlq.go:170-186 | redriving keeps every task and makes the chosen dead ones due now with a fresh budget; purging removes exactly the chosen ones; neither touches another |
| DlqServer.HandleMutate | server/http/dlq.go:132-186 | the request does what the listed ids say, and what its selector says with push-down or when every matching task has a place; ids together with a filter are refused and change nothing |
| Glob.Glob | core/policy/glob.go:22-53 | the loop ends and answers true exactly when the recursive definition matches |
| Glob.LastStarSuffices | core/policy/glob.go:33-43 | forgetting all but the last star loses no match |
| Glob.StarIsAnyRun | core/policy/glob.go:5-16 | a star matches exactly the runs: some suffix is left to the rest of the pattern |
| Glob.LiteralIsEquality | core/policy/glob.go:13-16 | without wildcards matching is equality |
| Ulid.String | core/envelope/codec.go:160-189 | the rendered text is the encoding of the id |
| Ulid.ParseULID | core/envelope/codec.go:124-157 | exactly the 26-character alphabet strings with a first digit of at most 7 are accepted, and decoded |
| Ulid.Bijection | core/envelope/codec.go:124-189 | encoding and decoding are inverse on all ids and all accepted strings |
| Ulid.SymbolLess | core/envelope/codec.go:82-96 | the alphabet is in ascending character order |
| Ulid.AlphabetIs | core/envelope/codec.go:82-96 | the digits are the decimal digits and the capital letters without I, L, O and U |
| UlidOrder.TextIsNumeral | core/envelope/codec.go:160-189 | the text is the base-32 numeral of the 128-bit number the bytes spell |
| UlidOrder.SameOrder | core/envelope/codec.go:80-189 | text order, byte order and numeric order are the same |
| UlidOrder.TimeRoundTrip | core/envelope/codec.go:107-196 | the time comes back modulo 2^48, so exactly for 48-bit times |
| UlidOrder.LaterSortsLater | core/envelope/codec.go:80-120 | an id with a later time sorts later, whatever its random part |
| RateLimit.NewBucket | core/engine/ratelimit.go:70-91 | limited exactly for a positive count and period, starting full with one period's tokens |
| RateLimit.Limiter.constructor | core/engine/ratelimit.go:70-91 | the bucket of the configured rate |
| RateLimit.Limiter.Refill | core/engine/ratelimit.go:130-141 | credits forward time up to the burst; a clock that goes back credits nothing; what that comes to is AllowExact and PeriodEarnsCount |
| RateLimit.Limiter.AllowN | core/engine/ratelimit.go:106-122 | all or nothing: granted exactly when the amount is at most min(burst, tokens + rate × the forward advance of the clock) |
| RateLimit.AllowExact | core/engine/ratelimit.go:106-141 | a request is granted exactly when min(burst, tokens + rate × advance) covers it, and exactly that much is left less the grant |
| RateLimit.PeriodEarnsCount | core/engine/ratelimit.go:70-91 | a new bucket is full and each configured period earns the configured count |
| RateLimit.Limiter.GrantTokens | core/engine/worker.go:399-405 | single tokens until the first refusal or enough |
| RateLimit.GrantedBound | core/engine/ratelimit.go:106-141 | over any run of calls on any clock, grants are at most the burst plus the rate times the forward advance |
| RateLimit.LevelExact | core/engine/ratelimit.go:106-141 | after any run of calls on any clock the tokens left are exactly what the grants made and the readings leave of the start and of a full bucket at each reading |
| RateLimit.GrantedExactly | core/engine/ratelimit.go:106-141 | after any run a request is granted exactly when it is at most the burst and, since the start and since every reading, it and what was granted do not exceed what the bucket and the advance of the clock brought |
| RateLimit.IdleIsGranted | core/engine/ratelimit.go:106-141 | after any run a request within the burst made n / rate seconds after the latest reading is granted |
| RateLimit.RefusalMeans | core/engine/ratelimit.go:106-141 | a refusal within the burst names the reading since which grants and request together exceed the burst plus the rate times the advance |
| RateLimit.GrantsStopAtRefusal | core/engine/worker.go:399-405 | single tokens are granted until the first refusal, which is an answer of the limiter |
| RateLimit.LatestIsLatest | core/engine/ratelimit.go:124-141 | that advance ends at the latest reading of the run |
| Polling.Normalised | core/engine/worker.go:277-309 | refused exactly without a name or a positive lease; otherwise each limit is kept if it is sound and becomes one, the lease, or half a second |
| Polling.NewWorker | core/engine/worker.go:253-312 | a worker with the normalised configuration, no running handler and a full bucket, or none |
| Polling.Worker.constructor | core/engine/worker.go:300-305 | the configured slots, batch and bucket |
| Polling.Worker.PollOnce | core/engine/worker.go:358-395 | claims no more than free slots and tokens, every slot reservation finds a free slot while handlers return at any moment, a token is spared only if the limiter refused it, and as many due tasks are claimed as there are tokens |
| Polling.GrantsWanted | core/engine/worker.go:358-405 | a poll has a token for each free slot up to the batch size, unless the limiter refuses the next one |
| Polling.ClaimsAreDue | core/engine/worker.go:376-395 | a poll claims min(tokens, due) tasks |
| Polling.SlotsBound | core/engine/worker.go:358-395 | over any run of polls and returns the running handlers never exceed the slots |
| Polling.ClaimsBound | core/engine/worker.go:358-405 | over any run of polls, claims are at most the burst plus the rate times the forward advance of the limiter's clock |
| Backoff.BaseLadder | core/policy/backoff.go:75-89 | the base delay starts at min(initial, max), never decreases and never exceeds max |
| Backoff.StepLaw | core/policy/backoff.go:75-89 | each rung is the one before times the multiplier, capped, up to the rounding of the two |
| Backoff.WholeStepLaw | core/policy/backoff.go:75-89 | with a whole multiplier each rung is exactly min(multiplier × the one before, cap) |
| Backoff.UncappedOverflows | core/policy/backoff.go:64-86 | an uncapped doubling ladder with jitter one half does leave the 64-bit range |
| Backoff.CapIsLasting | core/policy/backoff.go:75-89 | once at max it stays at max |
| Backoff.TopIsReached | core/policy/backoff.go:75-89 | a growing ladder reaches its cap and stays there |
| Backoff.DelayRange | core/policy/backoff.go:57-71 | the delay is non-negative and within base × (1 ± jitter) after truncation |
| Backoff.DelayEven | core/policy/backoff.go:57-71 | the delay grows with the draw, evenly around the base: draw 0 gives the low end, draw one half the base itself |
| Backoff.ConvertsAlways | core/policy/backoff.go:57-71 | no draw and no retry number leaves the 64-bit range exactly when the highest rung times (1 + jitter) does not |
| Truncate.RuneSafePrefix | core/envelope/validate.go:110-115 | cuts at the greatest boundary not past n |
| Truncate.Truncate | core/envelope/validate.go:94-106 | the shortened text |
| Truncate.Shortens | core/envelope/validate.go:94-106 | fits the limit, stays valid UTF-8, is the input exactly when that fits, otherwise the longest whole-character prefix plus the marker or a marker prefix, and is idempotent |
| Truncate.CutsWell | core/envelope/validate.go:110-115 | a cut of valid UTF-8 is valid and at most three bytes short |
| Truncate.Decodes | core/envelope/validate.go:94-115 | text that is well formed byte by byte is the UTF-8 encoding of a text of code points |
| Truncate.Encodes | core/envelope/validate.go:94-115 | and every such encoding is well formed |
| Truncate.MarkerIs | core/envelope/validate.go:94-106 | the marker is the encoded ellipsis and "[truncated]" |
| Mapping.AttemptRowsFromEnvelope | storage/postgres/mapping.go:100-132 | one row per attempt in order, error columns set only for an error |
| Mapping.EnvelopeFromRows | storage/postgres/mapping.go:138-175 | the envelope of a task row and its attempt rows |
| Mapping.EnvelopeRoundTrip | storage/postgres/mapping.go:68-205 | taking an envelope apart and reassembling it changes only empty to nil |
| Mapping.RowRoundTrip | storage/postgres/mapping.go:100-205 | an attempt row comes back exactly when it is of the form this code writes |
| Mapping.TaskRowRoundTrip | storage/postgres/mapping.go:68-175 | a task row comes back unless its version column is empty instead of NULL |
| Mapping.NormSettles | storage/postgres/mapping.go:68-205 | normalising once is enough and does not change the rows |
| Mapping.RowIsStored | storage/postgres/mapping.go:68-98 | the row of an envelope is the row the store's transactions work on, and each further column holds the field it is named for |
| Mapping.AttemptRowIsStored | storage/postgres/mapping.go:100-132 | the same for attempt rows; the error type a dead-letter row repeats is the one in the error_type column |
| Residual.AppendResidual | core/envelope/codec.go:409-443 | known members followed by the residual sorted by key |
| Residual.CaptureResidual | core/envelope/codec.go:391-405 | the members whose keys are not known |
| Residual.CaptureAfterAppend | core/envelope/codec.go:391-443 | the residual comes back exactly when none of its keys is a known name |
| Residual.KnownUntouched | core/envelope/codec.go:447-497 | known fields decode as before when the residual keeps apart from their names ignoring case |
| Residual.DisturbsIff | core/envelope/codec.go:447-497 | a residual can change a known field exactly when one of its keys is a field name ignoring case |
| Residual.QueueDisturbs | core/envelope/codec.go:447-497 | a residual key "Queue" can overwrite the queue of any envelope |
| ResidualStable.StableKeysIff | core/envelope/codec.go:389-497 | every object with given keys reads the same after being written and read again, exactly when each field named by keys equal up to case has the greatest of them as its last key |
| ResidualStable.EnvelopeKeysIff | core/envelope/codec.go:389-497 | the same for whole envelopes whose attempts have such keys |
| ResidualStable.ReadTwice | core/envelope/codec.go:447-497 | for any field and any variant of its name written before it, the second reading gives the field the variant's value |
| ResidualStable.QueueReadTwice | core/envelope/codec.go:447-497 | for one, {"Queue": b, "queue": a} has queue a, and queue b when read again |
| Residual.EnvelopeRoundTrip | core/envelope/codec.go:389-497 | with residual keys apart at both levels, encoding and decoding an envelope with its attempts is the identity |
| Decimal.ParseFormat | core/memstore/memstore.go:523-548 | parsing undoes decimal formatting |
| Decimal.Numeral | core/memstore/memstore.go:523-548 | formatting gives the usual numeral without leading zeros |
| Decimal.ParseFormatSigned | storage/postgres/dlq.go:285-315 | parsing undoes signed decimal formatting |

## Left out

- Interleaving inside one storage call: each call is one atomic step, as one lock or one transaction makes it; row locks, SKIP LOCKED and read-committed anomalies are not modelled, so table disjointness is proved for atomic calls only.
- Routing (`core/registry/registry.go`) and error classification (`core/policy/classify.go`): their results are inputs of `Worker.Process`, as are the backoff ladder and the random draw; modelling the ladders would only add easy members.
- Lease renewal by heartbeat goroutines, handler timeouts, panics, draining: they appear as extension calls, crashes and late writes at arbitrary moments.
- MemPaging.ListSessionComplete: dead-letter and claim counters are unbounded; a session is assumed to see a dead-letter counter below 2^64.
- DlqServer.CollectByFilter: as MemPaging.ListSessionComplete; so DlqServer.HandleMutate.
- MemStore.Store.DLQList: ties of the sort by dead-letter number are broken by id; reachable stores have no ties.
- PgPaging.ListSessionComplete: the database's text order is taken to be code-point order, death times are assumed to fit 64-bit nanoseconds, and ids to be byte strings.
- PgStore.Store.ClaimDue: random tokens are a parameter, assumed new and distinct; Progress.PgNeverStuck shows that such tokens always exist.
- PgRefines.SweepRefines: the age a sweep compares differs between the backends, so the contract leaves open which succeeded tasks are old enough; the exact cut-off over runs is PgClocks.RunSweep.
- MemRefines.SweepRefines: as PgRefines.SweepRefines; the exact cut-off over runs is MemClocks.RunSweep.
- PgRefines.EnqueueRefines: for an envelope that lists its attempts out of number order, which history results is not stated, only whether it is admitted and keeps the invariant.
- Payload, content type, headers and residual of a task are one opaque `body` in the lifecycle modules; `Mapping` and `Residual` treat them in full.
- Mapping.EnvelopeRoundTrip: JSON columns are objects, not text; the rewriting that a jsonb column does to raw values is not modelled.
- Residual.EnvelopeRoundTrip: JSON text, escapes and the typed parsing of known fields are not modelled; objects are member lists.
- RateLimit.GrantedBound: token amounts are reals; IEEE-754 rounding is not modelled. The same holds for the other laws of RateLimit and Backoff.
- UlidOrder.TimeRoundTrip: the random bytes are a parameter.
- Truncate.Truncate: a negative limit, on which slicing would panic, is not admitted.
- `Stats`, capabilities, due notifications, queue listing: reads that would only add easy members.
- Submission options and id derivation by SHA-256 (`sdk-go/submit/submit.go`): only the fresh shape of a submitted task is used.
- The HTTP surface apart from redrive and purge, the CLI, configuration loading, metrics, logging, audit, migrations, and the Java port.
