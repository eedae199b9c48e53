# Verification of the institution management system's core

A Dafny model of the parts of the system that have to stay correct across crashes, concurrent callers and
unbounded inputs, with proofs of what they are for. `dafny verify dfyconfig.toml` checks everything.

## What is modelled

| file | component |
|---|---|
| `Runs.dfy` | runs and reachable states of a state machine, shared by all protocols |
| `OutboxProtocol.dfy` | outbox, job queue and inbox as one machine with any number of transactions, relays and dispatchers |
| `RelayClaims.dfy`, `InboxOnce.dfy`, `Conservation.dfy` | its three invariants: claims, at-most-once effects, and when nothing is lost |
| `OutboxRules.dfy` | its rules with the services' own conditions and numbers: when an event may go, which rows a batch has, what ends a job |
| `QueueLoss.dfy` | what losing the queue or a job that stalls out costs, and when the outbox makes up for it |
| `OutboxRelay.dfy` | the relay service: wake-up flags, batches, the relay loop |
| `EventDispatcher.dfy` | dispatching one event to its handlers, publishing, the purge of delivered events |
| `Idempotency.dfy`, `IdempotencyProtocol.dfy` | the idempotency interceptor: the serial reference, and interleaved clients that behave like it |
| `CanonicalJson.dfy`, `RequestFingerprint.dfy` | canonical JSON with a parser that takes it back, and when two requests are the same |
| `TtlCache.dfy` | the website's single-flight cache |
| `Pagination.dfy`, `Versioning.dfy` | keyset traversals and optimistic locking while other writers change the table |
| `Numbering.dfy`, `NumberUniqueness.dfy` | document number patterns, scopes and numbers, and what a number tells |
| `NumberScopes.dfy` | when two scopes share a number |
| `NumberCounters.dfy`, `BranchCodes.dfy` | issuing numbers from counters and storing them under unique indexes, in concurrent transactions and under patterns that are replaced; branch codes as the database admits them |
| `Money.dfy`, `InvoiceFlow.dfy` | splitting by basis points, plans, typed amounts; instalments, payments and discounts |
| `Like.dfy`, `Phone.dfy` | search patterns and phone numbers |
| `SystemRoles.dfy` | synchronising the roles table with the roles defined in code |
| `Xml.dfy` | escaping text for the RSS feed |
| `Options.dfy`, `Chars.dfy`, `Digits.dfy` | results, alphabets and white space, decimal texts |

Protocols are state machines whose steps are the atomic actions of the database, the queue and the
processes; a crash is a step that rolls a process's open transaction back, or a run in which it takes no
further step. Services are classes over the same state, and their methods are proved to be runs of the
machine or to do exactly what its steps do. Assumptions: PostgreSQL shows committed rows only, an insert
that conflicts with another transaction's uncommitted row waits for it, and an update waits for a row's
lock; the queue is durable, drops a job whose id it still knows, and fails a job that stalls more than once,
its default, which `apps/api/src/messaging/event-consumer.service.ts:28-35` does not change; ids are never
used again; the clock does not run backwards. Random ids, clocks and the outcome of handlers and loaders are
parameters.

## What the code does not meet

Each point is a lemma below, with the exact condition under which the code is right.

- `createdAt.toISOString()` as a cursor drops the microseconds of the column, so a listing, newest first,
  skips rows saved in the same millisecond as the last row of a page (`Pagination.ByCreationListsIff`,
  `Pagination.RowOfTheSameMillisecondSkipped`).
- `docs/adr/0006-reliable-side-effects.md:31` says the queue can be lost without losing the record of what
  must be sent. The record is the outbox row, and it lasts 7 days from publishing: after that the purge may
  remove the row of an event whose job has not finished (`QueueLoss.RecoverableIff`,
  `QueueLoss.PurgeThenLossLosesTheRecord`). While it lasts, nothing in the code uses it: a published row is
  never relayed again (`QueueLoss.MarkedIsStranded`, `QueueLoss.QueueLossIsSafeIff`).
- `docs/adr/0006-reliable-side-effects.md:13-16` says a crash loses nothing. Two workers that die at the same
  job make the queue fail it, and its event is not delivered again although it has had no eight attempts
  (`Conservation.NothingLost`, `QueueLoss.StallsLosePublished`, `QueueLoss.StalledOutIsStranded`).
- The dispatcher's "exactly once" ends with the inbox retention: a handler that inserts its inbox row more
  than 30 days after its event was handled takes effect again (`InboxOnce.AtMostOnceIff`,
  `InboxOnce.LateRedeliveryHandlesTwice`).
- `TtlCache` reads the clock twice when a load fails. If more than a millisecond passes in between, a value
  can be served beyond staleFor + 5000 ms (`TtlCache.StalenessBoundIff`,
  `TtlCache.LateRenewalServesTooOld`), and a loader that synchronously asks for its own key breaks single
  flight (`TtlCache.SingleFlightIff`, `TtlCache.ReentryBreaksSingleFlight`).
- A conflict can report a version that is not larger than the one named, when that version was never
  committed (`Versioning.ConflictIsNewerIff`).
- "Custom roles are never touched" fails for a custom role whose key becomes a defined one: it is taken
  over (`SystemRoles.CustomRoleUntouchedIff`, `SystemRoles.CustomRoleTakenOver`).
- National digits typed without a trunk zero are read as an international number when they begin like the
  calling code (`Phone.BareIff`, `Phone.AreaCodeReadAsCallingCode`).
- Numbers are gapless in each scope and, by the unique indexes, never repeat (`NumberCounters.Gapless`,
  `NumberCounters.NeverRepeats`). What the indexes cost is progress: the next number of a scope may be one that
  another scope's document has; its insert fails, the counter goes back with the transaction, and every
  retry draws the same number, so nothing more is issued in the scope as long as it keeps its pattern
  (`NumberCounters.IssuesIff`). For invoices and certificates the failure is reported as already invoiced or
  already issued. It can happen exactly when two scopes a series uses meet, that is, their texts agree up to
  what a sequence can stand for (`NumberCounters.NeverBlockedIff`, `NumberScopes.SharesIff`): when the pattern is
  replaced by one that begins like it, a{SEQ:3} by a0{SEQ:2} (`NumberCounters.ReplacedPatternBlocks`), and under
  one pattern when a branch code and the sequence run together (`NumberCounters.OnePatternIff`), also for codes
  of 2 to 10 characters (`BranchCodes.ShortCodesBeforeIff`, `BranchCodes.ShortCodesAfterIff`).

## Model

| member | source | states |
|---|---|---|
| `RelayClaims.StepKeepsRelayInv` | apps/api/src/messaging/outbox-relay.service.ts:87-134 | no step of any transaction, relay or dispatcher lets two open relays hold one row, a claimed row be published, or a row be marked twice |
| `RelayClaims.RunKeepsRelayInv` | apps/api/src/messaging/outbox-relay.service.ts:25-29 | claims of concurrent relays are disjoint and each event is marked published by at most one committed relay, at every point of every run |
| `InboxOnce.StepKeepsInboxInv` | apps/api/src/messaging/event-dispatcher.service.ts:48-63 | open handler transactions hold distinct inbox keys that nobody has committed, and only the purge forgets a committed one |
| `InboxOnce.AtMostOnceIff` | apps/api/src/messaging/event-dispatcher.service.ts:20-24 | in every run, with overlapping dispatches, crashes, retries and purges, no (handler, event) pair takes effect twice exactly when no handler commits on a handled pair whose inbox row it inserted more than 30 days after it was handled, whenever its transaction began |
| `InboxOnce.AtMostOnce` | apps/api/src/messaging/event-dispatcher.service.ts:20-24 | in particular, no pair takes effect twice while no handler's inbox row is inserted later than that |
| `InboxOnce.HandledAgainIffForgotten` | apps/api/src/messaging/maintenance.service.ts:67-69 | after a purge a pair that took effect can take effect again exactly when it did so more than 30 days ago; a missing inbox row means that it did |
| `InboxOnce.LateRedeliveryHandlesTwice` | apps/api/src/messaging/maintenance.service.ts:60-72 | a run from the initial state in which one pair takes effect twice |
| `Conservation.StepKeepsDeliveryInv` | apps/api/src/messaging/outbox-relay.service.ts:87-134 | every step keeps each committed event pending, queued, handled by all its handlers, out of attempts, or failed because its job stalled too often |
| `Conservation.NothingLost` | docs/adr/0006-reliable-side-effects.md:13-16 | that holds at every point of every run; and all along the run no event is lost, each being pending, queued, handled or out of attempts, exactly when no job stalls out while its event is not pending, handled or out of attempts, and no relay commits its mark of an event whose job is gone by then |
| `Conservation.InitIsConsistent` | apps/api/src/messaging/outbox.service.ts:31-46 | the empty system meets the conservation and at-most-once invariants, and nothing in it is lost |
| `Conservation.ReachedIsConsistent` | apps/api/src/messaging/outbox.service.ts:19-22 | every committed event is accounted for in every state reachable from the empty system |
| `Conservation.RolledBackNeverQueued` | apps/api/src/messaging/outbox.service.ts:19-22 | an event of a rolled-back transaction is in no table and no queue, is never delivered, claimed or handled |
| `Conservation.CrashLeavesPendingAndQueued` | apps/api/src/messaging/outbox-relay.service.ts:101-131 | a relay dying between enqueue and commit leaves its event pending and unlocked, and queued or past the queue |
| `Conservation.FinishKeepsTracks` | apps/api/src/messaging/event-dispatcher.service.ts:48-65 | a dispatch that ends normally has had every handler of its event handled, so completing the job loses nothing |
| `QueueLoss.StepKeepsRecord` | apps/api/src/messaging/outbox-relay.service.ts:122-130 | every step keeps each committed event in the outbox or marked by a relay |
| `QueueLoss.QueueLossIsSafeIff` | docs/adr/0006-reliable-side-effects.md:31 | emptying the queue loses nothing that it had not given up exactly when no event with an unfinished job has been marked by a committed relay |
| `QueueLoss.MarkedIsStranded` | apps/api/src/messaging/outbox-relay.service.ts:92-98 | after losing the queue an event that was marked and is not being dispatched is never relayed, delivered or handled again, in any run |
| `QueueLoss.StalledOutIsStranded` | apps/api/src/messaging/event-consumer.service.ts:28-35 | the same for an event that was marked and is not being dispatched when its job stalls out |
| `QueueLoss.StallsLosePublished` | apps/api/src/messaging/event-consumer.service.ts:28-35 | a reachable state in which a published event is lost after two workers died at its job: no handler has run and no attempt was counted |
| `QueueLoss.RelayMarksStalledOut` | apps/api/src/messaging/outbox-relay.service.ts:101-131 | a reachable state in which a job has stalled out before the relay that sent it commits: nothing is lost yet, and the relay's commit loses the event |
| `QueueLoss.GoneIffPurged` | apps/api/src/messaging/maintenance.service.ts:63-66 | the outbox row of a committed event is gone exactly when a purge of the run removed it, published more than 7 days before |
| `QueueLoss.RecoverableIff` | docs/adr/0006-reliable-side-effects.md:31 | at every point of every run, setting the surviving rows back to pending makes up for a lost queue exactly when no purge of the run removed the row of an event with an unfinished job |
| `QueueLoss.QueueLossLosesPublished` | docs/adr/0006-reliable-side-effects.md:31 | a reachable state in which losing the queue loses the delivery of a published event, while its record is still there and makes up for it |
| `QueueLoss.PurgeThenLossLosesTheRecord` | docs/adr/0006-reliable-side-effects.md:31 | a reachable state, after 8 days without a worker and a purge, in which losing the queue loses the record too |
| `OutboxProtocol.ConsumersIff` | apps/api/src/messaging/event-dispatcher.service.ts:48 | the handlers a dispatch goes through are exactly the ones registered for the event's type |
| `OutboxProtocol.ConsumersInOrder` | apps/api/src/messaging/event-dispatcher.service.ts:48 | each as often as it is registered, in the order of registration |
| `OutboxRules.NotBeforeItsTime` | apps/api/src/messaging/outbox-relay.service.ts:95 | in every reachable state an event that is claimed, queued, dispatched, published or handled was due: the time its row names has come |
| `OutboxRules.BatchIsOldest` | apps/api/src/messaging/outbox-relay.service.ts:92-98 | a batch is the 100 smallest ids of unpublished, due rows that no other relay has, or all of them |
| `OutboxRules.EighthFailureEnds` | apps/api/src/messaging/outbox-relay.service.ts:115 | a throw that reaches the queue counts one failure of its own job, which fails at the eighth and lives on before it |
| `OutboxRules.FinishCompletes` | apps/api/src/messaging/event-consumer.service.ts:28-35 | a dispatch that ends normally completes its job and no other |
| `OutboxRules.SecondStallFails` | apps/api/src/messaging/event-consumer.service.ts:28-35 | a stalled job is put back once and fails the second time |
| `OutboxRules.DoneStaysDone` | apps/api/src/messaging/outbox-relay.service.ts:114-118 | a completed or failed job is never delivered again and never changes until it is forgotten |
| `OutboxRules.CommitShows` | apps/api/src/messaging/outbox.service.ts:19-46 | a commit makes exactly the transaction's own rows visible, as they were published |
| `OutboxRules.RollbackDrops` | apps/api/src/messaging/outbox.service.ts:19-22 | a rollback drops exactly the transaction's own rows and shows none |
| `OutboxRules.InboxRowHasBeginTime` | apps/api/src/messaging/event-dispatcher.service.ts:51-57 | the inbox row has the time at which its transaction began, however long it waits and the handler takes |
| `OutboxRelay.SignalKeepsFlagsInv` | apps/api/src/messaging/outbox-relay.service.ts:61-79 | a wake, loop end or shutdown keeps: a re-run is asked of a running loop only, and starts and ends balance |
| `OutboxRelay.NoLostWakeUp` | apps/api/src/messaging/outbox-relay.service.ts:60-79 | in any order of signals, when the relay is idle and not stopped every wake-up was followed by a loop start |
| `OutboxRelay.NoStartAfterShutdown` | apps/api/src/messaging/outbox-relay.service.ts:53-68 | after a shutdown no relay loop ever starts, in any order of signals |
| `OutboxRelay.BatchShrinksPending` | apps/api/src/messaging/outbox-relay.service.ts:81-85 | publishing a batch removes exactly its size from the unpublished rows, the measure of the loop |
| `OutboxRelay.ShortBatchLeavesNothing` | apps/api/src/messaging/outbox-relay.service.ts:92-99 | after a batch of fewer than 100 rows no available row is left unclaimed |
| `OutboxRelay.MarkedRow` | apps/api/src/messaging/outbox-relay.service.ts:122-130 | marking a batch sets the publishing time of its rows and changes nothing else of any row |
| `OutboxRelay.DrainedEventsAreQueued` | apps/api/src/messaging/outbox-relay.service.ts:81-85 | what was pending and available before a complete relay loop is published and in the queue after it |
| `OutboxRelay.Relay.Wake` | apps/api/src/messaging/outbox-relay.service.ts:61-68 | the flags change as the wake-up machine says |
| `OutboxRelay.Relay.LoopEnded` | apps/api/src/messaging/outbox-relay.service.ts:72-78 | the end of a loop restarts it if it was asked to, as the wake-up machine says |
| `OutboxRelay.Relay.Shutdown` | apps/api/src/messaging/outbox-relay.service.ts:53-58 | from here on no wake-up starts a loop |
| `OutboxRelay.Relay.SelectBatch` | apps/api/src/messaging/outbox-relay.service.ts:92-98 | the batch is the smallest pending, available, unlocked ids, all of them if there are fewer than 100 |
| `OutboxRelay.Relay.RelayBatch` | apps/api/src/messaging/outbox-relay.service.ts:87-134 | claim, enqueue and mark are a run of the protocol that publishes exactly the batch, keeps every job already queued and adds a fresh one of the event's type for every other row |
| `OutboxRelay.Relay.RelayAll` | apps/api/src/messaging/outbox-relay.service.ts:81-85 | alone, the loop terminates, begins no batch once it is stopped, and unless stopped leaves no available pending event |
| `EventDispatcher.DispatchRuns` | apps/api/src/messaging/event-dispatcher.service.ts:48-63 | a dispatch runs distinct handlers that were not handled and do not throw; without a throw none is left |
| `EventDispatcher.DispatchStops` | apps/api/src/messaging/event-dispatcher.service.ts:48-63 | handlers run in registration order up to the first unhandled one that throws; those before it are all handled, those after it are not tried |
| `EventDispatcher.RetryCompletes` | apps/api/src/messaging/event-dispatcher.service.ts:20-24 | one failed attempt and a clean retry together run exactly the handlers of one clean attempt, in order, once each |
| `EventDispatcher.RetriesComplete` | apps/api/src/messaging/outbox-relay.service.ts:115 | the same for any number of attempts that fail at any handlers, with a clean one at the end |
| `EventDispatcher.Dispatcher.RunHandler` | apps/api/src/messaging/event-dispatcher.service.ts:49-62 | the inbox row and the handler's effects commit together or not at all |
| `EventDispatcher.Dispatcher.Dispatch` | apps/api/src/messaging/event-dispatcher.service.ts:36-66 | a dispatch is a run of the protocol with the effects, inbox rows with their times, counts and error of the handler-by-handler specification; a throw costs its job one attempt; nothing else changes |
| `EventDispatcher.OutboxService.Publish` | apps/api/src/messaging/outbox.service.ts:31-46 | the row joins the caller's open transaction and is visible to nobody else |
| `EventDispatcher.DeliveredEventsJob.Run` | apps/api/src/messaging/maintenance.service.ts:60-72 | exactly the rows published over 7 times 24 hours ago and the inbox rows over 30 times 24 hours old go, the others stay as they are, and the count is right |
| `Idempotency.StoredIffCommitted` | apps/api/src/common/idempotency/idempotency.interceptor.ts:109-133 | in the serial reference a key's row is the response of the last request whose work committed |
| `Idempotency.CommitsADayApart` | apps/api/src/common/idempotency/idempotency.interceptor.ts:92-93 | two commits under one (caller, key) store their responses at least 24 hours apart |
| `Idempotency.AnswersUntilExpiry` | apps/api/src/common/idempotency/idempotency.interceptor.ts:92-105 | until the expiry the same request is replayed, any other is refused, and nothing more commits |
| `Idempotency.AnswersFromHistory` | apps/api/src/common/idempotency/idempotency.interceptor.ts:80-136 | every answer told from earlier answers alone: until the expiry of the key's last commit replay or refuse, otherwise run |
| `Idempotency.FailureFreesKey` | apps/api/src/common/idempotency/idempotency.interceptor.ts:30-34 | a failed or refused attempt changes no later answer: a free key stays free |
| `Idempotency.KeyIff` | apps/api/src/common/idempotency/idempotency.interceptor.ts:21 | a key is accepted exactly when it has 8 to 255 characters of the alphabet written out |
| `Idempotency.UuidIff` | apps/api/src/common/idempotency/idempotency.interceptor.ts:22 | a UUID is exactly five groups of 8, 4, 4, 4 and 12 hexadecimal digits of either case joined by dashes |
| `Idempotency.UuidIsKey` | apps/api/src/common/idempotency/idempotency.interceptor.ts:62-64 | every UUID is an accepted key, so an anonymous caller can have one |
| `Idempotency.Interceptor.Intercept` | apps/api/src/common/idempotency/idempotency.interceptor.ts:42-137 | key checks, then exactly the reference's answer and table; without a usable key the table is untouched |
| `Idempotency.Interceptor.Purge` | apps/api/src/messaging/maintenance.service.ts:50-59 | rows past their expiry go, and no later request is answered differently |
| `IdempotencyProtocol.InitIsConsistent` | apps/api/src/common/idempotency/idempotency.interceptor.ts:80-86 | the machine starts in a state of the invariant |
| `IdempotencyProtocol.StepKeepsInv` | apps/api/src/common/idempotency/idempotency.interceptor.ts:80-136 | every step of every client, the clock and the purge keeps the answers equal to a serial history's |
| `IdempotencyProtocol.Linearizable` | apps/api/src/common/idempotency/idempotency.interceptor.ts:80-136 | interleaved requests are answered as if served one at a time, in an order that respects real time |
| `IdempotencyProtocol.StoredExactlyWhenCommitted` | apps/api/src/common/idempotency/idempotency.interceptor.ts:30-34 | in the interleaved machine a stored response exists exactly when the work of that request committed |
| `IdempotencyProtocol.AloneIsServed` | apps/api/src/common/idempotency/idempotency.interceptor.ts:80-136 | from every state a request whose lock is free can run to its end, and then has the reference's answer and leaves the reference's table |
| `IdempotencyProtocol.PurgeLeaves` | apps/api/src/messaging/maintenance.service.ts:50-59 | the purge leaves exactly the rows whose expiry has not passed, unchanged |
| `IdempotencyProtocol.StepUnpurged` | apps/api/src/messaging/maintenance.service.ts:50-59 | a step possible with purged rows is possible without the purge and gives the same answer |
| `IdempotencyProtocol.PurgeIsInvisible` | apps/api/src/messaging/maintenance.service.ts:50-59 | leaving every purge out of a run gives a run with the same clients and answers |
| `RequestFingerprint.SameRequestIff` | apps/api/src/common/idempotency/idempotency.interceptor.ts:71-75 | two requests are the same exactly when method, path and the meanings of body and query agree |
| `RequestFingerprint.NamesAre` | apps/api/src/common/idempotency/idempotency.interceptor.ts:73-75 | what is hashed has the fields body and query |
| `CanonicalJson.UnescapeEscape` | apps/api/src/common/json/canonical-json.ts:8-10 | a quoted string is read back, surrogates and control characters included (section 7 of RFC 8259) |
| `CanonicalJson.WordsAre` | apps/api/src/common/json/canonical-json.ts:3-11 | the words and punctuation of the text |
| `CanonicalJson.NumberIff` | apps/api/src/common/json/canonical-json.ts:10 | the characters of a printed number, written out |
| `CanonicalJson.WellFormedIff` | apps/api/src/common/json/canonical-json.ts:2-10 | the results on canonical texts ask nothing of a value but printed numbers and different keys in an object, at every level |
| `CanonicalJson.ShortEscapesAre` | apps/api/src/common/json/canonical-json.ts:8 | the two-character escapes of JSON.stringify, written out |
| `CanonicalJson.OtherUnitsAre` | apps/api/src/common/json/canonical-json.ts:8 | other control characters and lone surrogates are written in lower-case hexadecimal, all else as it is |
| `CanonicalJson.EscapeStep` | apps/api/src/common/json/canonical-json.ts:8 | a surrogate pair is copied, every other unit is written on its own |
| `CanonicalJson.BeforeIff` | apps/api/src/common/json/canonical-json.ts:7 | keys are compared by the first code unit that differs, a proper prefix first |
| `CanonicalJson.SortSorts` | apps/api/src/common/json/canonical-json.ts:7 | members with different keys are sorted by code units, none added or dropped |
| `CanonicalJson.SortedIsUnique` | apps/api/src/common/json/canonical-json.ts:7 | a set of members has one sorted order, so the order of the object's keys does not show |
| `CanonicalJson.CanonicalParses` | apps/api/src/common/json/canonical-json.ts:2-11 | the text is JSON that parses back to the value without undefined fields, undefined items being null |
| `CanonicalJson.SameMeaningSameText` | apps/api/src/common/json/canonical-json.ts:1 | values that mean the same have the same text |
| `CanonicalJson.CanonicalIffSameMeaning` | apps/api/src/common/json/canonical-json.ts:1-11 | two values have the same text exactly when they mean the same |
| `TtlCache.RunKeepsInv` | apps/web/src/lib/cache.ts:23-47 | in every interleaving without re-entrant loaders one load per key is in flight, `inflight` names exactly those, and a running load's captured entry is the stored one |
| `TtlCache.BeginKeepsFlightIff` | apps/web/src/lib/cache.ts:27-30 | a new load keeps single flight exactly when no loader of its key is just being started |
| `TtlCache.SingleFlightIff` | apps/web/src/lib/cache.ts:23-47 | at most one load per key is in flight all along a run exactly when no loader asks for its own key while it is being started |
| `TtlCache.ServedIsLatestAndBounded` | apps/web/src/lib/cache.ts:25 | a served value is the latest loaded for its key and younger than the larger of its largest ttl and staleFor + 5000 ms, plus what a failure callback took beyond a millisecond |
| `TtlCache.DeliveredIsLatest` | apps/web/src/lib/cache.ts:44-46 | a shared load delivers the latest value of its key, and its clean-up removes its own record and no other |
| `TtlCache.ErrorIffNothingYoung` | apps/web/src/lib/cache.ts:36-43 | a failed load surfaces its error exactly when nothing younger than staleFor was loaded for the key |
| `TtlCache.LoadKeeps` | apps/web/src/lib/cache.ts:23-30 | all its life a load keeps the key and ttl it was asked with and the entry it found |
| `TtlCache.LoadedIsServed` | apps/web/src/lib/cache.ts:31-35 | a loaded value is served from then on for exactly its ttl, and other keys are served as before |
| `TtlCache.FailedIsServed` | apps/web/src/lib/cache.ts:36-43 | a failed load delivers its captured value, served for exactly 5000 ms more, when that was fetched less than staleFor ago, and otherwise an error that changes no entry |
| `TtlCache.OnMiss` | apps/web/src/lib/cache.ts:25-30 | without a fresh entry a get shares the load recorded for its key, and one may begin exactly when there is none |
| `TtlCache.RenewalKeepsBoundIff` | apps/web/src/lib/cache.ts:37-39 | everything served from a renewed entry, whatever loads are in flight, was fetched less than the larger of the largest ttl and staleFor + 5000 ms ago, exactly when at the second clock reading it is at most staleFor old, or 5 seconds short of the largest ttl |
| `TtlCache.StalenessBoundIff` | apps/web/src/lib/cache.ts:36-43 | all along every run, re-entrant loaders included, that bound is kept, however long one waits, exactly when every failure renews in time |
| `TtlCache.LateRenewalServesTooOld` | apps/web/src/lib/cache.ts:37-39 | a reachable state that serves a value as old as the bound, after two milliseconds between the readings |
| `TtlCache.ReentryBreaksSingleFlight` | apps/web/src/lib/cache.ts:30-45 | a reachable state in which a load is unfinished and unrecorded, after its loader asked for its own key |
| `TtlCache.Cache.Ask` | apps/web/src/lib/cache.ts:23-30 | a fresh value is served, a running load shared, and otherwise one load begun with the entry seen now |
| `TtlCache.Cache.Started` | apps/web/src/lib/cache.ts:45 | the load is recorded as the one in flight for its key |
| `TtlCache.Cache.StartFailed` | apps/web/src/lib/cache.ts:30 | a loader that throws at once leaves the entries and the records as they were |
| `TtlCache.Cache.OnValue` | apps/web/src/lib/cache.ts:31-35 | the value is stored with its ttl, and only for its key |
| `TtlCache.Cache.OnError` | apps/web/src/lib/cache.ts:36-43 | the captured entry is stored again for 5 seconds if it is young enough; otherwise nothing changes but the outcome |
| `TtlCache.Cache.OnFinally` | apps/web/src/lib/cache.ts:44 | the record of the key is removed |
| `Pagination.RefusedIff` | packages/db/src/pagination.ts:23-38 | a page request fails exactly when its cursor does not encode as many scalars as there are key columns |
| `Pagination.PageOfRows` | packages/db/src/pagination.ts:65-70 | from limit + 1 rows a page has the first limit, and a cursor of its last item exactly when a row is left |
| `Pagination.FirstIsFront` | packages/db/src/pagination.ts:65-70 | the first rows are the front of the list, as many as asked for if there are as many |
| `Pagination.OrderIsUnique` | packages/db/src/pagination.ts:41-54 | a set of rows has one order under comparison of row values |
| `Pagination.AfterCursorIff` | packages/db/src/pagination.ts:41-55 | the rows after a cursor are those that are larger, or under desc smaller, in the first column that differs |
| `Pagination.OrderedRises` | packages/db/src/pagination.ts:41-55 | a listing rises, or under desc falls, by the first column that differs, so its first column never turns back |
| `Pagination.NothingTwice` | packages/db/src/pagination.ts:4-8 | with cursors that continue after their row, however the table changes between pages, no row comes twice and rows come in order |
| `Pagination.KeptRowsOnce` | packages/db/src/pagination.ts:4-8 | with such cursors a row present at every page of a complete traversal is returned exactly once |
| `Pagination.FixedTable` | packages/db/src/pagination.ts:61-70 | on a fixed table the pages join to a prefix of the ordered listing, all of it at the end, and an unfinished traversal has passed fewer rows than there are |
| `Pagination.FollowToTheEnd` | packages/db/src/pagination.ts:61-70 | every traversal of a fixed table can be followed to its end without a refused cursor |
| `Pagination.WholeKeyIsFaithful` | packages/db/src/pagination.ts:8 | a cursor of the whole sort key always continues after its row |
| `Pagination.TraversalsListIff` | packages/db/src/pagination.ts:61-70 | traversals list the table at every page size exactly when each row's cursor selects the rows after that row |
| `Pagination.ByCreationListsIff` | apps/api/src/modules/posts/application/posts.service.ts:81 | listings by creation time are complete at every page size exactly when later rows of one millisecond have whole milliseconds and smaller ids |
| `Pagination.RowOfTheSameMillisecondSkipped` | apps/api/src/modules/posts/application/posts.service.ts:69-81 | two rows of one millisecond, one row a page: a complete traversal returns one of them |
| `Versioning.Table.UpdateWithVersion` | packages/db/src/versioning.ts:22-49 | without other writers: updated exactly when the row is at the named version; otherwise nothing changes, and a conflict names another version |
| `Versioning.StepKeepsInv` | packages/db/src/versioning.ts:29-35 | every insert, delete, update, select, commit and abort keeps versions consecutive and each written by the call that named the one before |
| `Versioning.NothingOverwritten` | packages/db/src/versioning.ts:17-21 | in every reachable state a row's version counts its committed updates and its fields are the inserted ones with exactly those updates applied in order |
| `Versioning.OneWinner` | packages/db/src/versioning.ts:31-38 | a success replaced exactly the version it named, and of the calls naming one version at most one succeeds |
| `Versioning.ConflictIsNewerIff` | packages/db/src/versioning.ts:40-48 | for any row, locked, missing or deleted, whatever happens before and between the two queries: a conflict can only report a larger version exactly when the named one has been committed or the row is gone for good |
| `Versioning.SelectAnswers` | packages/db/src/versioning.ts:39-48 | the second query answers not found exactly when there is no row, and otherwise a conflict with its committed version |
| `Versioning.ConflictsAreCommitted` | packages/db/src/versioning.ts:39-48 | in every reachable state the version a conflict reports is one that was committed to that row |
| `Versioning.CallIsAnswered` | packages/db/src/versioning.ts:23-48 | from every state a call on a row that nobody holds can run to its end, and then is answered and leaves the row as promised |
| `Numbering.PrintTokens` | packages/contracts/src/numbering.ts:14 | the placeholders and characters read from a pattern print to the pattern |
| `Numbering.TokensPrint` | packages/contracts/src/numbering.ts:14-15 | pieces whose literals are no braces are read back from their text |
| `Numbering.RemoveFirstKeeps` | packages/contracts/src/numbering.ts:41 | removing a placeholder's first occurrence keeps the text after it and the characters before it, even if an earlier removal made that occurrence |
| `Numbering.CheckNumberPattern` | packages/contracts/src/numbering.ts:29-47 | the loop reports the first bad placeholder, else a wrong count, else a bad literal, of the pattern's one reading |
| `Numbering.AcceptedIff` | packages/contracts/src/numbering.ts:28-47 | a pattern is accepted exactly when it is fields and literals around one {SEQ:n} with n from 1 to 12 |
| `Numbering.LiteralIff` | packages/contracts/src/numbering.ts:14-15 | the characters allowed around placeholders, and those of a placeholder's name, written out |
| `Numbering.FirstProblemIs` | packages/contracts/src/numbering.ts:31-42 | the first bad placeholder is the one reported |
| `Numbering.TokenProblemIs` | packages/contracts/src/numbering.ts:33-40 | a placeholder is good exactly when it is {SEQ:n} with n from 1 to 12 or one of the five fields without a width; another one is named as it stands |
| `Numbering.OneSequenceIff` | packages/contracts/src/numbering.ts:43 | one sequence is counted exactly when one placeholder and no other is a sequence |
| `Numbering.ProblemIs` | packages/contracts/src/numbering.ts:29-47 | problems are reported in their order: a bad placeholder, not exactly one sequence, a character that is not allowed |
| `Numbering.SplitIsUnique` | packages/contracts/src/numbering.ts:28-47 | an accepted pattern splits in one way |
| `Numbering.SearchIsReading` | packages/contracts/src/numbering.ts:59-61 | searching the text for a placeholder, or for the first {SEQ:n}, finds those of the reading and no others |
| `Numbering.FailsIff` | packages/contracts/src/numbering.ts:74-76 | rendering fails exactly when the pattern uses the branch and there is none, for the scope as for the number |
| `Numbering.YearsTell` | packages/contracts/src/numbering.ts:66-73 | the year fields read as the calendar year and the fiscal year |
| `Numbering.ShortFieldsTell` | packages/contracts/src/numbering.ts:68-71 | the short year and the month show two digits that read as them |
| `Numbering.PlainPieces` | packages/contracts/src/numbering.ts:63-81 | years of four digits show four, a literal shows itself, and a branch field the code, or fails without one |
| `Numbering.NumberIsScope` | packages/contracts/src/numbering.ts:83-91 | a number is its scope with the sequence, padded to the width, in place of its mark |
| `Numbering.ScopeNumbersDiffer` | packages/contracts/src/numbering.ts:83-91 | in one scope numbers differ for different sequences, past the pad width and across a change of width, and are equal for equal ones |
| `Numbering.NumberTells` | packages/contracts/src/numbering.ts:63-91 | with four-digit years and branch codes of one length, or no branch, a number determines its scope and its sequence |
| `Digits.DigitIff` | packages/contracts/src/numbering.ts:14 | the digits, written out |
| `Chars.SpaceIff` | packages/contracts/src/phone.ts:18-19 | the white space of the host language's expressions and trim, written out |
| `Chars.TrimIs` | packages/contracts/src/phone.ts:18 | trimming takes away the white space around a text and nothing of the text |
| `NumberUniqueness.SeparatedTells` | packages/contracts/src/numbering.ts:63-91 | with a literal that is no digit between the sequence and some branch, on either side and among any number of branches, a number determines scope and sequence for codes of any lengths |
| `NumberUniqueness.RunningMeets` | packages/contracts/src/numbering.ts:63-91 | without one, a code of digits shares a number with the code of what is shown from the first branch to the sequence, 1, and what is shown from there to the last branch |
| `NumberUniqueness.BranchBeforeMeets` | packages/contracts/src/numbering.ts:63-91 | with only digits `mid` between the one branch and the sequence, every code shares a number with the code that continues it by mid and 1: AB with sequence 11 and AB1 with sequence 1 under {BRANCH}{SEQ:1} |
| `NumberUniqueness.BranchAfterMeets` | packages/contracts/src/numbering.ts:63-91 | with the branch after the sequence, every code shares a number with the code that 1 and mid come before |
| `NumberUniqueness.NumberTellsIff` | packages/contracts/src/numbering.ts:63-91 | with any number of branches wherever they stand, numbers determine scope and sequence for codes of letters and digits of any lengths exactly when a literal that is no digit stands between some branch and the sequence |
| `NumberUniqueness.NoBranchTells` | packages/contracts/src/numbering.ts:59-91 | without a branch a number always determines scope and sequence |
| `NumberCounters.StepKeepsInv` | apps/api/src/modules/settings/application/numbering.service.ts:92-124 | drawing, inserting, committing and rolling back keep the documents of each counter numbered without gaps, the open ones and then the drawn number after the committed ones |
| `NumberCounters.Gapless` | apps/api/src/modules/settings/application/numbering.service.ts:86-90 | in every reachable state the documents of a series and scope have the sequences 1 up to the counter's value, each once |
| `NumberCounters.StepKeepsUnique` | packages/db/src/schema/billing.ts:115 | every step keeps the numbers of a series' stored documents, committed or not, different |
| `NumberCounters.NeverRepeats` | apps/api/src/modules/settings/application/numbering.service.ts:86-90 | in every reachable state no two documents of a series have the same number, whatever their patterns, branches and dates |
| `NumberCounters.TakenRollsBack` | packages/db/src/schema/billing.ts:115 | a transaction whose drawn number is taken can only roll back, and no other transaction's step changes that |
| `NumberCounters.OwnNumbersDiffer` | apps/api/src/modules/settings/application/numbering.service.ts:86-90 | the next number of a scope is never one of its own documents', even if the pattern was replaced in between |
| `NumberCounters.BlockedStays` | apps/api/src/modules/billing/application/invoices.service.ts:236-259 | a scope whose next number is taken stays blocked and issues nothing in any run in which it keeps its pattern |
| `NumberCounters.IssuesIff` | apps/api/src/modules/settings/application/numbering.service.ts:92-124 | from every reachable state some run that keeps the scope's pattern issues another number in it exactly when its next number is not taken |
| `NumberCounters.BlockedClashes` | apps/api/src/modules/settings/application/numbering.service.ts:92-124 | the document that has a scope's next number is of another scope of the series, and the two scopes meet |
| `NumberScopes.ShownIff` | packages/contracts/src/numbering.ts:83-91 | a text of digits is a padded positive sequence exactly when it is not only zeros, has the width, and leads with no zero past it |
| `NumberScopes.SharesIff` | packages/contracts/src/numbering.ts:83-91 | some number of one scope a, width, b is also one of another exactly when one's front and end are the other's and digits, which fit the width if they lead with a zero, or each one's text has the other's sequence in it and they agree in between |
| `NumberCounters.NotBlockedIfTold` | apps/api/src/modules/settings/application/numbering.service.ts:92-124 | while a series keeps a pattern whose numbers determine scope and sequence, no scope of it is blocked |
| `NumberCounters.NeverBlockedIff` | apps/api/src/modules/settings/application/numbering.service.ts:66-124 | for any set of patterns and contexts a series uses, its patterns replaced as may be, no scope of it is ever blocked exactly when no two different scopes that it uses meet |
| `NumberCounters.OnePatternIff` | apps/api/src/modules/settings/application/numbering.service.ts:92-124 | a series that keeps one pattern with branches, of codes of any lengths, never blocks a scope exactly when a literal that is no digit stands between some branch and the sequence |
| `NumberCounters.ReplacedPatternBlocks` | apps/api/src/modules/settings/application/numbering.service.ts:66-84 | a reachable state with one document a001 under a{SEQ:3}, from which nothing is ever issued under a0{SEQ:2}, whose next number is a001 too; neither pattern blocks a scope by itself |
| `BranchCodes.SeparatedNeverBlocked` | packages/db/src/schema/settings.ts:77 | with a separator no scope is ever blocked under codes of 2 to 10 characters |
| `BranchCodes.CloseBranchesBlock` | packages/db/src/schema/settings.ts:77 | without one, a scope can be blocked under such codes, however many branches there are, if at most nine characters are shown from the first branch to the sequence and from it to the last, with 11 as the code |
| `BranchCodes.ShortCodesBeforeIff` | packages/db/src/schema/settings.ts:77 | with one branch and only digits behind it up to the sequence, no scope of a series with codes of 2 to 10 characters is ever blocked exactly when no two dates show digits there that fit each other shifted by 1 to 8 |
| `BranchCodes.ShortCodesAfterIff` | packages/db/src/schema/settings.ts:77 | the same with the branch after the sequence |
| `BranchCodes.SevenDigitsBlock` | packages/db/src/schema/settings.ts:77 | with at most seven digits between, a scope can always be blocked |
| `BranchCodes.NineDigitsTell` | packages/db/src/schema/settings.ts:77 | {BRANCH}123456789{SEQ:1} never blocks a scope under such codes, though nothing separates branch and sequence |
| `Money.SplitByBasisPoints` | packages/contracts/src/money.ts:46-54 | no shares or shares that are not 10000 are refused; otherwise the parts join to exactly the total and all but the last are truncated shares |
| `Money.SplitIsUnique` | packages/contracts/src/money.ts:41-45 | those two facts determine the parts |
| `Money.QuotientTruncates` | packages/contracts/src/money.ts:50 | division drops the fraction towards zero, for negative totals too |
| `Money.SumJoins` | packages/contracts/src/money.ts:48 | sums of joined lists add up |
| `Money.PlanIsValid` | packages/contracts/src/billing.ts:82-96 | the issues are exactly: shares that are not 100 %, and due dates that are not in order all along |
| `Money.PlanSplit` | packages/contracts/src/money.ts:41-54 | for a valid plan no part is negative, all but the last are exact floors, and the last exceeds its floor by at most n - 1 |
| `Money.PlainNumbersAreExact` | packages/contracts/src/money.ts:3-8 | up to the maximum amount every sum, leftover and part stays below 2^53 |
| `Money.ProductsNeedBigInt` | packages/contracts/src/money.ts:45-50 | plain products would be exact exactly up to a total below the maximum, so the wide multiplication is needed |
| `Money.ParseMoneyIff` | packages/contracts/src/money.ts:19-28 | a text is read as an amount exactly when, without commas and spaces, it spells it, one digit after the point counting tenths, and it is at most 10 billion units |
| `Money.IgnoredIff` | packages/contracts/src/money.ts:20 | a comma and the white space written out are dropped, nothing else |
| `Money.FormattedIsRead` | packages/contracts/src/money.ts:19-28 | an amount written with two decimals is read back, however its digits are grouped |
| `InvoiceFlow.AllocatePayment` | apps/api/src/modules/billing/domain/money-flow.ts:48-63 | instalments in due order get the shares of one closed formula, and the rest is handed back |
| `InvoiceFlow.ApplyDiscount` | apps/api/src/modules/billing/domain/money-flow.ts:70-86 | latest due first by the same formula; refused exactly when it is more than is open |
| `InvoiceFlow.ByDueDateSorts` | apps/api/src/modules/billing/domain/money-flow.ts:19-20 | due order is sorted by date and sequence and is a permutation |
| `InvoiceFlow.ByDueDateIsStable` | apps/api/src/modules/billing/domain/money-flow.ts:19-20 | instalments of the same date and sequence stay in their order |
| `InvoiceFlow.PaymentIsConserved` | apps/api/src/modules/billing/domain/money-flow.ts:44-63 | allocations and remainder add up to the payment, and the remainder is what exceeds all that is open |
| `InvoiceFlow.OldestFirst` | apps/api/src/modules/billing/domain/money-flow.ts:44-47 | an instalment gets something only when everything due before it is covered |
| `InvoiceFlow.ShareBounds` | apps/api/src/modules/billing/domain/money-flow.ts:56-60 | nobody gets less than nothing or more than is owed |
| `InvoiceFlow.AllocationsAre` | apps/api/src/modules/billing/domain/money-flow.ts:56-60 | the allocations name exactly those who get something, with their shares, each once and in due order |
| `InvoiceFlow.LatestFirst` | apps/api/src/modules/billing/domain/money-flow.ts:75 | a discount goes through all instalments from the latest due to the earliest |
| `InvoiceFlow.DiscountIsConserved` | apps/api/src/modules/billing/domain/money-flow.ts:70-86 | a discount that is not refused is cut off as a whole, an instalment only after all due later are cut down to what is paid |
| `InvoiceFlow.NewAmountsAre` | apps/api/src/modules/billing/domain/money-flow.ts:78-82 | the changes name exactly the instalments that are cut, with their amounts less their cuts |
| `InvoiceFlow.TwoPaymentsAreOne` | apps/api/src/modules/billing/domain/money-flow.ts:48-63 | two payments leave every instalment as one payment of both amounts does |
| `InvoiceFlow.PayKeepsOrder` | apps/api/src/modules/billing/domain/money-flow.ts:19-20 | a payment does not change the order the next one is applied in |
| `InvoiceFlow.CutsSpareWhatIsPaid` | apps/api/src/modules/billing/domain/money-flow.ts:65-69 | a discount never cuts an instalment below what is paid |
| `InvoiceFlow.PayingTheTotalSettles` | apps/api/src/modules/billing/domain/money-flow.ts:22-37 | an invoice from a valid plan has its parts, sequences and due dates from the plan and is due in its order, and paying its total settles every instalment with nothing left |
| `Like.MatchLiteral` | apps/api/src/common/db/like.ts:1-4 | escaped text inside any pattern matches that text and nothing else |
| `Like.ContainsIff` | apps/api/src/common/db/like.ts:1-4 | `%` + escaped text + `%` matches exactly the texts that contain it, with or without case folding |
| `Like.StartsWithIff` | apps/api/src/modules/posts/application/posts.service.ts:110 | escaped text + `%` matches exactly the texts that begin with it |
| `Like.MatchesItselfOnly` | apps/api/src/common/db/like.ts:1-4 | an escaped text alone matches only itself |
| `Phone.NormalizedShape` | packages/contracts/src/phone.ts:9-13 | a stored number is a plus and 8 to 15 digits |
| `Phone.LooksLikeNumberIff` | packages/contracts/src/phone.ts:19 | a text looks like a number exactly when it begins with a plus, a digit or a bracket and goes on with digits, spaces, brackets, points and dashes, written out |
| `Phone.InternationalIsKept` | packages/contracts/src/phone.ts:22-29 | digits of any country behind a plus or two zeros are stored as they are if there are 8 to 15 |
| `Phone.OthersAreRefused` | packages/contracts/src/phone.ts:19 | what does not look like a number is refused |
| `Phone.Idempotent` | packages/contracts/src/phone.ts:14-30 | a stored number is its own stored form, whatever calling code is configured |
| `Phone.SpellingsAgree` | packages/contracts/src/phone.ts:9-27 | the plus, 00, 0, calling code and bare spellings of a number, however decorated, have one stored form |
| `Phone.BareIff` | packages/contracts/src/phone.ts:26-27 | bare national digits are read as national exactly when they do not begin like the calling code |
| `Phone.AreaCodeReadAsCallingCode` | packages/contracts/src/phone.ts:26-27 | 251111234, a number of area code 25 under calling code 251, is stored without a calling code; with its trunk zero it is stored right |
| `Phone.PhoneLikeIff` | apps/api/src/common/db/like.ts:19-22 | a word gives a pattern exactly when three digits are left from its first digit that is no zero |
| `Phone.PatternFindsIff` | apps/api/src/common/db/like.ts:14-22 | the pattern finds exactly the numbers that contain those digits |
| `Phone.SearchFinds` | apps/api/src/common/db/like.ts:14-22 | a search word whose digits are a slice of the number as typed gives no pattern or one that matches the stored number |
| `SystemRoles.RoleStore.SyncSystemRoles` | packages/db/src/reference/system-roles.ts:18-61 | from any state the defined roles end with every detail and permission as defined, keeping their ids and versions, and every other role only loses the system flag; what is written has the time of the call |
| `SystemRoles.SyncedTwice` | packages/db/src/reference/system-roles.ts:8-12 | synchronising again changes nothing but update times |
| `SystemRoles.CustomRoleUntouchedIff` | packages/db/src/reference/system-roles.ts:10 | a custom role is left as it was exactly when its key is not a defined one |
| `SystemRoles.CustomRoleTakenOver` | packages/db/src/reference/system-roles.ts:31-54 | a custom role `editor` with a permission of its own, and a definition of that key: its details and permission are replaced |
| `SystemRoles.SystemRolesAreDefined` | packages/db/src/reference/system-roles.ts:56-60 | afterwards a role is a system role exactly when it is defined |
| `Xml.EscapeIsSubstitution` | apps/web/src/lib/rss.ts:12-19 | the six replacements in their order are one substitution of characters |
| `Xml.IllegalIff` | apps/web/src/lib/rss.ts:10 | the characters dropped are those below the space but tab, line feed and carriage return |
| `Xml.DecodeEscape` | apps/web/src/lib/rss.ts:12-19 | reading the predefined entities (section 4.6 of XML 1.0) gives the text back without the forbidden characters |
| `Xml.EscapedSameIff` | apps/web/src/lib/rss.ts:12-19 | two texts are written the same exactly when they differ in forbidden characters only |
| `Xml.EscapedIsSafe` | apps/web/src/lib/rss.ts:21 | escaped text has no markup, no quotes, no forbidden character, and an ampersand only in front of an entity |
| `Xml.AmpersandFirstIff` | apps/web/src/lib/rss.ts:14-19 | replacing the ampersand last is right exactly for texts without markup and quotes |

## Left out

- The queue's own retries in time (backoff) and job priorities: a live job may be delivered at any moment and
  more than once.
- When the queue finds a stalled job: a live job may stall at any moment, and again after it was put back.
- A re-relayed event is dropped by the queue only while the queue still knows its job id; the model lets
  finished jobs be forgotten at any time instead of after fixed ages.
- Effects outside the database, such as sending mail, are at least once only and are no part of the claims.
- Sealed payloads are opaque, and so are correlation and actor ids.
- LISTEN/NOTIFY and its reconnection, polling and timers: a wake-up may come at any moment.
- Jobs other than the purges of idempotency keys and delivered events.
- Versions of the same row updated twice inside one transaction; each call has its own transaction.
- SHA-256 and the advisory lock's hash: request hashes are the hashed texts themselves, and lock hashes may collide freely.
- Status codes and headers of HTTP answers: a stored response is a status and a body.
- Values with their own toJSON, functions, symbols, big integers and arrays with holes given to canonicalJson.
- Printing of numbers in JSON: a number is given by its printed text; infinities and NaN are null, as in the source.
- Base64url and JSON decoding of cursors: a cursor is what it decodes to. Column values are ranks in their column's order.
- Filters of listings: a table is the set of rows that meet them when a page is fetched.
- The length limits and trimming of numberPatternSchema, and non-integer or negative years.
- Amounts that are not whole numbers given to splitByBasisPoints, which the source rejects in BigInt.
- formatMoney and the formatting of dates: library behaviour. Dates of instalments are numbers of days.
- Folding in ILIKE is by character; a pattern that ends in a bare backslash matches nothing, where the database raises an error. escapeLike makes no such pattern.
- searchTokens: lower-casing and splitting by white space.
- XML's other forbidden characters (lone surrogates, U+FFFE, U+FFFF), which xmlEscape does not remove either.
- The creation and audit columns of roles, and assignments of roles to people.
- EventDispatcher.Dispatcher.Dispatch: no other dispatcher moves during the call or has a handler of the same event open; overlapping dispatches are the steps of the protocol, where InboxOnce and Conservation speak of them.
- EventDispatcher.Dispatcher.RunHandler: as Dispatch.
- BranchCodes.CloseBranchesBlock: with several branches, more than nine characters and codes of 2 to 10 characters the condition is the one of NumberCounters.NeverBlockedIff on scopes; a condition on the pattern's pieces is given for one branch.
- Numbers issued for years without four digits, and the calendar arithmetic that makes years, months and fiscal years of a date.
- discountAmount and invoiceStatusFor: single expressions.
- Drawing a number without storing it in the same transaction, which no caller does; documents are never deleted.
- The audit hash chain and its verification are not part of this model.
- Status tables and permission lookups, which are small finite tables, and all screens.
