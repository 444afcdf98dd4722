# Delivery, commands and dates: a verified model

A Dafny model of the parts of the event platform that must hold under crashes, retries and races, with
proofs over every run of them. `dafny verify dfyconfig.toml` checks the whole project.

- **The consumer delivery protocol** (`libs/messaging`). `Failure`, `Dispatch` and `Backoff` follow the
  code of one delivery: where a failure goes and when, the copy that is republished, the wait for its
  not-before. `Delivery` puts them in a step system: source partitions, the retry topic, the
  dead-letter topic, resolved and committed offsets, messages in flight, the deduplication ledger. A
  run is any sequence of enabled steps, so crashes, shutdowns and unacknowledged republications may
  fall anywhere, and a rebalance may leave a handler running beside the one its partition went to.
  `DeliveryNoLoss`, `DeliveryEffects` and `DeliveryChains` hold what is proved of every run,
  `DeliveryProgress` that none is stuck and that everything that may go wrong is among the runs;
  `DeliveryRuns` is the one run, step by step, on which their conditions are shown to be needed.
- **Idempotent commands in a transaction** (`libs/http-edge`, `libs/transactions`). `Idempotency` is
  the concurrent protocol over the unique constraint of `idempotency_record`, purges included, with the
  code of one attempt beside it. `Transactions` is `TransactionRunner.run`.
- **The `PerformanceDate` aggregate** (`apps/catalog/src/dates`). `Publication` and `PerformanceDates`
  are the decisions and the object that takes them, and `DateDecisions` says in the tables' terms which
  goes through, which is refused and with what; `DateHistory` is about whole lives of a date;
  `DateRepositories` and `DateInterleavings` about saving it beside other transactions; `RunFacts` and
  `ChecklistFacts` about reordered and repeated messages. The decision tables of `@arthome/core` are
  function-valued parameters (`CoreRules.Rules`): everything is proved for any tables. `RunFacts`
  alone assumes two rows, technical to live and live to ended.
- **Slugs** of one show's dates: their allocation (`DateSlugs`), and the studio's commands on several
  dates of a show, each given the slug that is free when it runs (`ShowCommands`).
- **Smaller algorithms**: the deep freeze of an object graph (`Frozen`), edits of JSON trees along
  paths (`SchemaPaths`), the topic reader of the outbox reconciliation (`Reconciliation`), the doubling
  schedule (`Failure`), and weak `If-None-Match` comparison against section 13.1.2 of RFC 9110
  (`ConditionalGet`).

## What the code does that its documentation does not say

Each of these is a statement proved below, with the exact condition under which the documented promise
holds.

- A retry's not-before counts from the start of the failed attempt, not from its failure: `dispatch`
  is given a clock read before the handler runs. So the delay is waited out after the failure exactly
  when the handler took no longer than the jitter drawn: for every draw only if it took no time, for
  some draw only if it took a fifth of the delay at most (`DeliveryChains.WhenTheDelayIsWaitedOut`).
  `DeliveryChains.ARetryIsCalledEarly` is a run in which it is not.
- A source topic called `null` loses messages: its name in the origin header reads back as an absent
  value, so a retry copy finds no handler (`DeliveryNoLoss.NoLossExactlyWithoutANullTopic`).
- `doublingDelays` does not end for some inputs, and does not cap its first delay
  (`Failure.ScheduleEndsExactly`, `Failure.DoublingDelays`).
- Two checklist facts of one item at the same latest instant that disagree leave a table that depends
  on their order (`ChecklistFacts.OrderMattersExactlyForConflicts`).
- Removing the root of a body and redacting it do not commute: the last one wins. No other two edits
  fail to (`SchemaPaths.EditsCommute`, `SchemaPaths.OrderMattersExactlyForAClash`).
- `frozen` does not enter an object frozen earlier, so what only that object holds stays mutable
  (`Frozen.DeepFreeze`, `Frozen.AFrozenObjectIsNotEntered`).
- `noneMatch` never matches an entity tag that holds a comma, not even with itself; the server's tags
  hold none (`ConditionalGet.SplittingDecidesExactlyWithoutACommaInTheTag`).

## What is assumed of the surroundings

- KafkaJS resolves an offset only when `eachMessage` returns normally, commits no offset it has not
  resolved, and delivers each partition in order; messages of the source topics carry no `arthome-*`
  header. The service's own retry and dead-letter topics are not among its sources, and its sources
  stay the same from one start to the next: the retry copy of a source since removed has no handler.
- After a partition is reassigned, the return of a delivery still running for its former owner commits
  no offset.
- Retention drops nothing from a topic while the reconciliation reads it.
- A handler's claim in the ledger and its effect commit together, as they share a transaction. A ledger
  row is purged only while no consumer can still take a copy of its message and no handler of a former
  owner is at one, and its outbox row is not republished afterwards; `DeliveryEffects.AnEarlyPurgeRepeatsTheEffect` shows the need.
- Postgres enforces the unique constraint of `idempotency_record` (a second insert waits for the first
  one's end) and commits atomically; a conditional UPDATE waits for the row's open writer.
- The wall clock and the monotonic clock advance together during a backoff.

## Model

| member | source | states |
|---|---|---|
| `Decimal.ParseIntOfSpelled` | libs/messaging/src/dispatch.ts:39-44 | the attempt counter written on a copy is read back as the same number, for every number |
| `Decimal.ParseIntOfSpelledThen` | libs/messaging/src/dispatch.ts:39-44 | a counter followed by anything but a digit is read as the number before it |
| `Failure.RetryDelayAfter` | libs/messaging/src/failure.ts:47-55 | there is a delay exactly for the attempts the schedule covers, and the jitter adds at most a fifth of it |
| `Failure.RouteFailure` | libs/messaging/src/failure.ts:74-86 | permanent errors are never retried, transient ones exactly while attempts are left, as the next attempt and inside that delay's window |
| `Failure.TheThreeWaits` | libs/messaging/src/failure.ts:16-17 | without jitter a failure comes back after 5 seconds, then 30 seconds, then 5 minutes, and a fourth time not at all |
| `Failure.DoublingDelays` | libs/messaging/src/failure.ts:34-41 | the i-th delay is the first one doubled i times and capped; the sum reaches the total, and does not without the last delay |
| `Failure.ScheduleEndsExactly` | libs/messaging/src/failure.ts:34-41 | the loop ends on exactly the inputs `ScheduleEnds` names |
| `Failure.OtherwiseTheScheduleNeverEnds` | libs/messaging/src/failure.ts:36-39 | on every other input no number of turns reaches the total |
| `Failure.JitteredScheduleLastsAtLeastItsDelays` | libs/messaging/src/failure.ts:47-55 | whatever the draws, the jittered waits last at least the sum of the delays and at most 1.2 times it |
| `Failure.JitterOf` | libs/messaging/src/failure.ts:54-54 | the jitter is at most a fifth of the delay for every draw |
| `Failure.JitterOfTheExtremeDraws` | libs/messaging/src/failure.ts:54-54 | it is nothing for the least draw and a whole fifth for the greatest, so the bounds are met |
| `Failure.WaitCoversExactly` | libs/messaging/src/failure.ts:74-86 | the not-before covers the delay after the failure for a draw iff the attempt took no longer than that draw's jitter, for every draw iff it took no time, for some draw iff it took at most a fifth of the delay |
| `Dispatch.ForwardHeaders` | libs/messaging/src/dispatch.ts:46-52 | the loop keeps exactly the headers that are neither null nor undefined |
| `Dispatch.CopyKeepsForeignHeaders` | libs/messaging/src/dispatch.ts:80-102 | a copy has its original's key, value, message id and every header that is not the service's own |
| `Dispatch.CopyKeepsTheMessage` | libs/messaging/src/dispatch.ts:77-103 | a republished copy keeps content, id and first topic, and its attempt decodes to one more on a retry and the same on a dead letter |
| `Dispatch.TopicsAreTheServicesOwn` | libs/messaging/src/failure.ts:88-106 | no two services share a retry or a dead-letter topic, and no retry topic is a dead-letter one |
| `Dispatch.CountersAreReadSafely` | libs/messaging/src/dispatch.ts:39-44 | no counter, a negative one or one that is no number counts as no attempt |
| `Dispatch.PublicationIsInItsPlace` | libs/messaging/src/dispatch.ts:76-103 | a failure is published on the retry topic, an attempt on and due in its window, exactly when it is transient with attempts left, else on the dead-letter topic with its reason; the same message, from its first topic, with its error |
| `Dispatch.DispatchMessage` | libs/messaging/src/dispatch.ts:67-105 | `retried` means one copy on the service's retry topic for a transient failure with attempts left, `dead-lettered` one on its dead-letter topic for any other; nothing is published for an answer; an unacknowledged publication escapes |
| `Backoff.Process.WaitUntilDue` | libs/messaging/src/consume.ts:55-72 | ends against any clock, is due no earlier than asked, otherwise leaves only having seen the shutdown, never sleeps once stopping nor past a heartbeat, and beats once a sleep |
| `Backoff.HoldUntilDue` | libs/messaging/src/consume.ts:112-121 | a retry is never handled before its not-before; a message without one, or already due, is not held |
| `Delivery.StepKeepsOffsets` | libs/messaging/src/consume.ts:111-134 | every step keeps committed, resolved and log end in order, with the message in flight at the resolved offset |
| `Delivery.CopyIsARetryRecord` | libs/messaging/src/dispatch.ts:77-103 | the copy published for any delivered record is faithful to its source, and one attempt on when it is a retry |
| `Delivery.StepKeepsRecords` | libs/messaging/src/dispatch.ts:67-105 | every step keeps every record at rest faithful to its source message |
| `Delivery.RepublishIsDispatch` | libs/messaging/src/dispatch.ts:76-103 | what a republication of the step system appends, and where, is what `dispatch` publishes: on a retry partition exactly when transient with attempts left, else among the dead letters |
| `Delivery.WorkersAreOnConsumedTopics` | libs/messaging/src/consume.ts:87-157 | every delivery in progress, its partition still its own or not, is of a topic the service consumes |
| `Delivery.EveryRunIsSound` | libs/messaging/src/consume.ts:87-157 | in every state of every run, copies keep key, value, id and first topic, attempts stay in 1 to 3 and follow their parent by one, and their not-before is the jittered delay after the clock `dispatch` was given |
| `DeliveryNoLoss.NoMessageIsEverLost` | libs/messaging/src/consume.ts:111-134 | in every state of every run, handlers of former owners included, each source message is uncommitted on its source or on the retry topic, dead-lettered, or was answered by its handler |
| `DeliveryNoLoss.ANullTopicLosesAMessage` | libs/messaging/src/dispatch.ts:30-37 | with a source topic named `null` there is a run after which a message is nowhere |
| `DeliveryNoLoss.NoLossExactlyWithoutANullTopic` | libs/messaging/src/consume.ts:123-130 | no run loses a message if and only if no source topic is named `null` |
| `DeliveryEffects.NothingComesBack` | libs/messaging/src/dispatch.ts:46-103 | an id on no record that may be taken and in no running handler stays so, unless it is produced anew |
| `DeliveryEffects.NoEffectIsAppliedTwice` | libs/messaging/src/processed-message.ts:62-76 | no run of redeliveries, handlers that outlive a reassignment, retry copies and republished rows applies one message id's effect twice |
| `DeliveryEffects.AnEarlyPurgeRepeatsTheEffect` | libs/messaging/src/processed-message.ts:7-11 | whenever any worker, a former owner's too, is about to handle a copy of an applied message, losing its ledger row lets its call apply it again |
| `DeliveryChains.EveryRunIsOnTime` | libs/messaging/src/consume.ts:112-121 | in every run each call is of a stored record, on the retry topic not before that record was due, and each copy names the call it retries |
| `DeliveryChains.RetriesRespectTheirDelay` | libs/messaging/src/dispatch.ts:77-95 | the k-th retry runs at least delay k after the call it retries, and its not-before exceeds that by at most a fifth |
| `DeliveryChains.WaitAfterTheFailure` | libs/messaging/src/consume.ts:132-132 | each retry at rest, in every run, is due its delay after the failure iff the attempt took no longer than the jitter of the copy's own draw |
| `DeliveryChains.WhenTheDelayIsWaitedOut` | libs/messaging/src/dispatch.ts:74-95 | of every attempt that failed in every run: one draw's copy waits the delay out iff the attempt took no longer than its jitter, every draw's iff it took no time, some draw's iff it took at most a fifth of the delay |
| `DeliveryChains.CallsWaitOutShortFailures` | libs/messaging/src/consume.ts:112-121 | in every run a retry is called its delay after the failure whenever the attempt took no longer than the jitter |
| `DeliveryChains.ARetryIsCalledEarly` | libs/messaging/src/consume.ts:132-132 | a run from the start, for any time a handler may take, whose retry is called before its delay after the failure iff that time is not nought, and with no wait at all iff it is the whole delay |
| `DeliveryChains.ASlowHandlerIsRetriedAtOnce` | libs/messaging/src/consume.ts:132-132 | in every run the copy of a failed attempt is due when published iff the delay and its jitter have passed since the attempt was dispatched, so always once the handler took 1.2 times the delay |
| `DeliveryChains.AFailureIsRetriedOrExhausted` | libs/messaging/src/dispatch.ts:86-104 | a failure becomes one retry record an attempt on, or one dead letter that says permanent or exhausted, and nothing else changes |
| `DeliveryChains.UninterruptedRunsAreStraight` | libs/messaging/src/dispatch.ts:67-105 | without interruptions no two records are the same attempt at a message and no record is handed over twice |
| `DeliveryChains.HandlerCallsAreBounded` | libs/messaging/src/failure.ts:68-71 | without interruptions a message's handler is called at most `attemptsAllowedBy` times |
| `DeliveryProgress.AnyRecordCanBeSeenThrough` | libs/messaging/src/consume.ts:111-134 | from every reachable state the next record of any partition can be waited for, fetched, handled and committed, and is then answered |
| `DeliveryProgress.AnswersAreDecidedByTheLedger` | libs/messaging/src/processed-message.ts:62-76 | a handler may claim and apply exactly while the id is not in the ledger, and call it a duplicate exactly while it is; it claims and applies its own id and no more |
| `DeliveryProgress.AnyDeliveryMayBeInterrupted` | libs/messaging/src/consume.ts:40-54 | any delivery may crash, or lose its partition and go on as it was, and the partition resume anywhere from the committed offset on |
| `DeliveryProgress.AnyWorkerMayWork` | libs/messaging/src/consume.ts:111-134 | whoever is at a record, its partition its own or not, may call, answer, throw and republish |
| `DeliveryProgress.NothingToWaitFor` | libs/messaging/src/consume.ts:112-121 | a source message, and a retry without an instant to wait for, are handled whatever the clock says |
| `DeliveryProgress.SourcesAndLedgerAreOpen` | libs/messaging/src/republish.ts:80-90 | a source takes any message without own headers, and a ledger row may go once nothing of its message is left |
| `Idempotency.EveryRunIsConsistent` | libs/http-edge/src/idempotency.ts:159-211 | in every interleaving a scope is held by exactly the attempt running its command, every committed row is the completed one of the scope's standing run, and each log entry was allowed when made |
| `Idempotency.AtMostOneRunBetweenPurges` | libs/http-edge/src/idempotency.ts:159-193 | two committed runs of one scope have a purge of that scope between them |
| `Idempotency.ReplaysAnswerTheStandingRun` | libs/http-edge/src/idempotency.ts:195-211 | every replayed answer is the envelope of an earlier run of the same scope and fingerprint, nothing having run or been purged in between |
| `Idempotency.NoCommandRunsBesideAStandingRecord` | libs/http-edge/src/idempotency.ts:176-193 | while a command runs no run stands for its scope and no other attempt of the scope runs one |
| `Idempotency.AnotherFingerprintIsRefused` | libs/http-edge/src/idempotency.ts:205-210 | a read replays the standing run of its own fingerprint, is refused as reused for another's, and as in flight when none stands |
| `Idempotency.RollBackFreesTheKey` | libs/http-edge/src/idempotency.ts:128-132 | a rolled-back attempt leaves rows and writes as they were and lets a waiting attempt insert at once |
| `Idempotency.WritesAndRecordCommitTogether` | libs/http-edge/src/idempotency.ts:128-174 | every committed record holds its run's envelope, and an attempt's writes are committed exactly when its run is, and are that run's |
| `Idempotency.EventsFollowTheCommitOnce` | libs/transactions/src/transaction-runner.ts:50-66 | a published event follows the commit of the run that wrote its aggregate, goes out once, and never for a replay, a refusal or a rollback |
| `Idempotency.EveryWrittenAggregateIsPublished` | libs/transactions/src/transaction-runner.ts:64-64 | unless the process dies after the commit, each aggregate a run wrote has its events out or about to go |
| `Idempotency.EveryAttemptCanGoOn` | libs/http-edge/src/idempotency.ts:159-211 | in every interleaving an attempt inserts, conflicts or waits, exactly one of the three; a command can finish and commit its record and writes; a conflict is read, a replay given, events go out in order |
| `Idempotency.AnyoneMayTry` | libs/http-edge/src/idempotency.ts:133-174 | an attempt may open at any time with any request, and fail at any time before its commit |
| `Idempotency.APurgedKeyIsFree` | libs/http-edge/src/idempotency.ts:205-206 | once its record is purged a scope can be claimed again |
| `Idempotency.ReadsAreAnswered` | libs/http-edge/src/idempotency.ts:195-211 | each read of the protocol is answered as one attempt's code answers from the same rows |
| `Idempotency.RecordTable.Claim` | libs/http-edge/src/idempotency.ts:176-193 | this transaction's row goes in exactly when no committed row has the scope and whoever held it rolled back; it times out exactly on a holder that does not end; otherwise the table is as the holder left it |
| `Idempotency.RecordTable.RunEnveloped` | libs/http-edge/src/idempotency.ts:159-211 | every case decided: a free scope runs the command and stores its answer; a completed record of the same fingerprint is replayed, of another refused as reused; one not completed, purged meanwhile or still held is refused as in flight |
| `Transactions.Once` | libs/transactions/src/transaction-runner.ts:54-57 | the written set holds exactly the aggregates saved, each once |
| `Transactions.OnceKeepsOrder` | libs/transactions/src/transaction-runner.ts:54-64 | aggregates publish in the order of their first registration |
| `Transactions.TransactionRunner.Collect` | libs/transactions/src/transaction-runner.ts:54-57 | the registrations of a transaction gather into that set, in order |
| `Transactions.TransactionRunner.PublishAll` | libs/transactions/src/transaction-runner.ts:64-64 | the bus receives each aggregate's events in order and no aggregate keeps any |
| `Transactions.TransactionRunner.PublishSaved` | libs/transactions/src/transaction-runner.ts:54-64 | an aggregate registered several times hands its events over once |
| `Transactions.TransactionRunner.Run` | libs/transactions/src/transaction-runner.ts:50-66 | a committed transaction publishes what each aggregate it wrote had applied, once; any other publishes nothing and keeps them; one opened inside another is refused, and the outer one with it |
| `Publication.AdvancedFrom` | apps/catalog/src/dates/publication.ts:65-74 | goes through exactly from the current version, one further and nothing else changed; otherwise refused with the current state and version |
| `PerformanceDates.PerformanceDate.Restore` | apps/catalog/src/dates/performance-date.aggregate.ts:138-143 | the aggregate of the given rows, nothing pending |
| `PerformanceDates.PerformanceDate.NewDraft` | apps/catalog/src/dates/performance-date.aggregate.ts:146-162 | a worldwide draft without a slug, at version 1, `DateDrafted` pending |
| `PerformanceDates.PerformanceDate.TransitionPublication` | apps/catalog/src/dates/performance-date.aggregate.ts:177-200 | the answer `DateDecisions.TransitionsAreDecided` decides, or nothing changed at all; the snapshot object is the same or a new one |
| `PerformanceDates.PerformanceDate.LearnRunStarted` | apps/catalog/src/dates/performance-date.aggregate.ts:203-208 | moves to live, or changes nothing when already learned or refused; never replaces the snapshot |
| `PerformanceDates.PerformanceDate.LearnRunEnded` | apps/catalog/src/dates/performance-date.aggregate.ts:211-217 | moves to ended, or changes nothing; an end during the technical check is thrown back |
| `PerformanceDates.PerformanceDate.DeclareOutcome` | apps/catalog/src/dates/performance-date.aggregate.ts:230-284 | the answer `DateDecisions.OutcomesAreDecided` decides with a new snapshot object, or nothing changed at all |
| `DateDecisions.TransitionsAreDecided` | apps/catalog/src/dates/publication.ts:100-147 | refused as core forbids it, then for an incomplete checklist when it would publish, then for a date already public; otherwise all it leaves of facts, publication and events |
| `DateDecisions.RunFactsAreDecided` | apps/catalog/src/dates/performance-date.aggregate.ts:203-223 | from each state, where a start and an end lead, when they change nothing, and with what they are refused |
| `DateDecisions.OutcomesAreDecided` | apps/catalog/src/dates/performance-date.aggregate.ts:230-284 | goes through exactly from the current version, when core's rule on the date's own facts lets it and the slugs are there; otherwise the first refusal of these; and all it leaves, the outcome, its message, instant and new start included |
| `DateDecisions.DraftsAreBare` | apps/catalog/src/dates/performance-date.aggregate.ts:146-162 | a draft is what was asked, worldwide, at version 1, with nothing of what comes later |
| `DateDecisions.PublicFactsSayTheDate` | apps/catalog/src/dates/performance-date.aggregate.ts:53-66 | what `DateScheduled` tells is the date's own facts, each under its name |
| `DateHistory.TheLogAgreesWithTheDate` | apps/catalog/src/dates/performance-date.aggregate.ts:146-284 | over every life, folding the applied events gives the date back: ids, state, version, public facts, outcome with its message, instant and new start, publication instants and postponements; each event is about that date and starts where the last ended |
| `DateHistory.VersionCountsChanges` | apps/catalog/src/dates/publication.ts:65-147 | the version is one more than the state changes and outcomes in the log |
| `DateHistory.PublishedInOneAct` | apps/catalog/src/dates/performance-date.aggregate.ts:186-199 | the act that gives a slug is a transition, sets both instants to its own, and applies the three events in the promised order |
| `DateHistory.ActKeepsPublication` | apps/catalog/src/dates/performance-date.aggregate.ts:286-299 | no act clears a slug, changes a publication instant, or the running time of a public date |
| `DateHistory.PublishingHappensOnce` | apps/catalog/src/dates/performance-date.aggregate.ts:177-299 | over every life and for any tables, what publication fixed stays fixed and `DateScheduled` is applied at most once |
| `DateHistory.PublishedByAReadyAct` | apps/catalog/src/dates/publication.ts:109-120 | over every life a public date was published by exactly one act, one core allowed to engage the prices and whose checklist was ready |
| `DateHistory.ReloadingContinuesTheLife` | apps/catalog/src/dates/performance-date.aggregate.ts:138-143 | a restored date answers every act as the one never unloaded would, its new events appended to the log |
| `DateRepositories.RowsRoundTrip` | apps/catalog/src/dates/performance-date.typeorm-repository.ts:79-142 | snapshots and columns convert into each other without loss, both ways |
| `DateRepositories.Tables.SaveVersioned` | libs/transactions/src/transaction-runner.ts:104-117 | one row changed exactly when it is at the loaded version; otherwise none, and a conflict that tells the row's own version and state, or a failure when there is no row |
| `DateRepositories.Repository.FindById` | apps/catalog/src/dates/performance-date.typeorm-repository.ts:31-44 | the two rows as one aggregate, remembered at the version read; none for an unknown id; a failure for a missing date row |
| `DateRepositories.Repository.Save` | apps/catalog/src/dates/performance-date.typeorm-repository.ts:52-76 | a date never loaded is inserted exactly when neither row is there, a loaded one written exactly at its version; then both rows are the aggregate's although the date row may be skipped; otherwise nothing changes, and a conflict says the current version |
| `DateRepositories.Repository.SaveAndFind` | apps/catalog/src/dates/performance-date.typeorm-repository.ts:31-76 | a saved date is found again with the same facts and publication, at the version saved |
| `DateRepositories.Repository.SaveDraft` | apps/catalog/src/dates/performance-date.typeorm-repository.ts:55-60 | a new draft is stored and found exactly when no row has its id |
| `DateInterleavings.EveryInterleavingIsCoherent` | apps/catalog/src/dates/performance-date.typeorm-repository.ts:31-76 | in every interleaving, at the version a handle was loaded at the rows it sees are the ones it remembers |
| `DateInterleavings.SkippingRefinesWritingBoth` | apps/catalog/src/dates/performance-date.typeorm-repository.ts:70-72 | every interleaving reaches the same state whether the save skips an unchanged date row or always writes both |
| `DateInterleavings.SavedRowsAreTheSavers` | apps/catalog/src/dates/performance-date.typeorm-repository.ts:52-76 | a save that goes through leaves the saver's facts and publication at a later version; any other leaves everything |
| `DateInterleavings.CommittedVersionsNeverGoBack` | libs/transactions/src/transaction-runner.ts:100-117 | no step takes the committed version back, and one version has one content |
| `DateInterleavings.CommittedRowsOnlyMoveForward` | apps/catalog/src/dates/performance-date.typeorm-repository.ts:31-76 | along any run, rows once committed stay, and any other rows committed later have a strictly later version |
| `DateInterleavings.StaleSavesChangeNothing` | libs/transactions/src/transaction-runner.ts:112-116 | a handle whose date moved on since its load is strictly behind, and its save changes nothing |
| `DateInterleavings.ATransactionAloneSucceeds` | apps/catalog/src/dates/performance-date.typeorm-repository.ts:31-76 | from every reachable state without an open writer, a transaction that loads, acts, saves and commits leaves the rows its act decides |
| `DateInterleavings.ADraftIsCommitted` | apps/catalog/src/dates/performance-date.typeorm-repository.ts:55-60 | where there are no rows, a draft saved and committed leaves its own |
| `DateInterleavings.ASecondSaveFollowsTheFirst` | libs/transactions/src/transaction-runner.ts:88-92 | a handle that saved may act and save again in its transaction |
| `DateInterleavings.ARollBackLeavesNothing` | libs/transactions/src/transaction-runner.ts:50-66 | a transaction rolled back leaves the committed rows and the other transactions as they were |
| `RunFacts.LearnRunFactHandler.Execute` | apps/catalog/src/dates/learn-run-fact.handler.ts:39-61 | claim, move, replay and outbox commit together as the specification says, or the throw leaves all of them |
| `RunFacts.ThrowsLeaveNoTrace` | apps/catalog/src/dates/learn-run-fact.handler.ts:39-61 | over every run, the date, ledger, outbox and replays are what the answered deliveries alone would have left, each answered as it was |
| `RunFacts.ExecutedStands` | apps/catalog/src/dates/performance-date.aggregate.ts:203-223 | from any point of the run a message not seen before takes the date exactly as far as its kind can, and is thrown back, to be retried, only as an end before a start |
| `RunFacts.EveryOrderConverges` | apps/catalog/src/dates/performance-date.aggregate.ts:203-223 | after any deliveries the date is where the answered ones put it: state, version and replays depend on which kinds were answered alone |
| `RunFacts.RunFactsConverge` | apps/catalog/src/dates/learn-run-fact.handler.ts:21-62 | once a start and an end were answered the date is ended two versions on, its replay opened once when promised and never otherwise, from the first end that was answered |
| `RunFacts.RepliesTellWhatHappened` | apps/catalog/src/dates/learn-run-fact.handler.ts:39-61 | which reply means nothing changed, the claim alone, or the claim and the date one version on; and the replay an applied end opens when core says so |
| `RunFacts.RefusalsAreRouted` | apps/catalog/src/dates/run-consumer.ts:61-69 | what core refuses is dead-lettered as permanent but for a version conflict; that, a reordering and a defect are retried |
| `RunFacts.ThrowsAreRouted` | apps/catalog/src/dates/run-consumer.ts:123-133 | an end during the technical check is retried until the attempts run out; any other refused run message is dead-lettered at once |
| `RunFacts.OnlyAnEarlyEndIsThrownBack` | apps/catalog/src/dates/run-consumer.ts:61-69 | only an end before any answered start is thrown back, and always as a retryable failure |
| `ChecklistFacts.Checklist.Record` | apps/catalog/src/dates/record-checklist-fact.handler.ts:18-48 | a duplicate or an unknown date changes nothing; otherwise the fact is claimed and written unless a later one stands |
| `ChecklistFacts.OutcomesAreDecided` | apps/catalog/src/dates/record-checklist-fact.handler.ts:18-48 | when a report is a duplicate, about an unknown date, superseded or applied, and what each leaves |
| `ChecklistFacts.TheTableDescribesTheReports` | apps/catalog/src/dates/record-checklist-fact.handler.ts:25-46 | after any deliveries each item holds a report that none about a known date is more recent than, the ledger is their ids, and reports about unknown dates left nothing |
| `ChecklistFacts.ChecklistFactsConverge` | apps/catalog/src/dates/record-checklist-fact.handler.ts:33-46 | any two orders and repetitions of the same reports leave the same table |
| `ChecklistFacts.DistinctInstantsNeverConflict` | apps/catalog/src/dates/record-checklist-fact.handler.ts:33-46 | reports with distinct instants per item meet the condition of convergence |
| `ChecklistFacts.OrderMattersExactlyForConflicts` | apps/catalog/src/dates/record-checklist-fact.handler.ts:42-42 | order is irrelevant if and only if no two reports at an item's latest instant disagree |
| `DateSlugs.ShapesAreDisjoint` | apps/catalog/src/dates/slug.ts:44-48 | a day, a day with a time and a day with an id never coincide, for any instants and ids |
| `DateSlugs.FreeDateSlug` | apps/catalog/src/dates/free-date-slug.ts:15-35 | the first free candidate, and free whenever any candidate is |
| `DateSlugs.TheMostReadableFreeOne` | apps/catalog/src/dates/free-date-slug.ts:22-34 | the day when it is free, else the day and time when that is, else the id |
| `DateSlugs.FreeExactly` | apps/catalog/src/public/slug-aliases.ts:49-71 | a slug is free exactly when no other date holds it and it leads to no other, or its redirect has expired |
| `DateSlugs.AnEveningsSlugs` | apps/catalog/src/dates/slug.ts:44-48 | the three candidates of one evening, written out |
| `DateSlugs.ALeftSlugIsKept` | apps/catalog/src/public/slug-aliases.ts:22-47 | a slug a date leaves is kept from the others until the redirect expires and no longer, and is always free for the date itself |
| `DateSlugs.TheAnswerIsFree` | apps/catalog/src/dates/free-date-slug.ts:22-34 | given ids distinct in their last eight characters, the answer is free, the last candidate included |
| `DateSlugs.SlugsStayUnique` | apps/catalog/src/dates/free-date-slug.ts:10-35 | in every run of publications and postponements no two dates of the show hold one slug |
| `DateSlugs.RetiredLinksStayWithTheirDate` | apps/catalog/src/public/slug-aliases.ts:37-71 | while the clock does not go back, a retired slug not yet expired is held by no date but its own |
| `DateSlugs.SharedTailsCollide` | apps/catalog/src/dates/free-date-slug.ts:34-34 | without distinct tails four publications at one hour give two dates one slug |
| `DateSlugs.PublishedThenPostponed` | apps/catalog/src/dates/free-date-slug.ts:15-35 | a date alone in its show is published under its day and postponed under its new one, the old one leading to it |
| `ShowCommands.DraftsAreDecided` | apps/catalog/src/dates/performance-date.aggregate.ts:146-162 | a draft is added where its id is not taken, and nothing else changes |
| `ShowCommands.RunFactsAreCarried` | apps/catalog/src/dates/learn-run-fact.handler.ts:43-48 | a start and an end are the date's own acts, its events appended to its log |
| `ShowCommands.TransitionsAreCarried` | apps/catalog/src/dates/transition-publication.handler.ts:63-97 | a transition is given the slug free at the date's start while it has none; a replay that refuses undoes it |
| `ShowCommands.OutcomesAreCarried` | apps/catalog/src/dates/declare-outcome.handler.ts:21-30 | a postponement says when to and is given the slug free then; any other outcome moves nothing, whatever the body says |
| `ShowCommands.UnknownDatesAreNotFound` | apps/catalog/src/dates/load-date.ts:24-25 | a command on a date that is not there changes nothing |
| `ShowCommands.EveryCommandFollows` | apps/catalog/src/dates/transition-publication.handler.ts:63-82 | every command leaves the show's slugs and aliases alone, or gives its date one slug that was free for it and is its own |
| `ShowCommands.NoTwoDatesShareASlug` | apps/catalog/src/dates/free-date-slug.ts:10-35 | in every run of drafts, transitions, outcomes and run facts on the dates of a show, for any tables, no two hold the same slug |
| `ShowCommands.PublishedByAReadyCommand` | apps/catalog/src/dates/transition-publication.handler.ts:60-82 | in every such run a date that holds a slug was published by a transition whose checklist was ready, under the slug that was free at its start |
| `ShowCommands.RetiredSlugsLeadHome` | apps/catalog/src/public/slug-aliases.ts:37-71 | in every such run whose clock does not go back, a date that holds a retired slug before it expires is the one it leads to |
| `ShowCommands.EveryDateAgreesWithItsLog` | apps/catalog/src/dates/performance-date.aggregate.ts:146-284 | in every such run each date, reloaded for every command, is the one its whole event log describes |
| `ShowCommands.Handlers.RetireMoved` | apps/catalog/src/public/slug-aliases.ts:38-47 | the loop retires the slug each move left, and nothing for a move to the same slug |
| `ShowCommands.Handlers.TransitionIn` | apps/catalog/src/dates/transition-publication.handler.ts:54-98 | loads, finds a slug when there is none, moves and records as one step of such a run; refused, also by the replay, it changes nothing |
| `ShowCommands.Handlers.DeclareIn` | apps/catalog/src/dates/declare-outcome.handler.ts:48-86 | finds a slug at the new start when there is one, declares and records as one step of such a run; refused it changes nothing |
| `Frozen.Freeze` | libs/transactions/src/frozen.ts:6-12 | ends on every finite graph, cycles included, and freezes exactly what the value reaches through unfrozen objects |
| `Frozen.DeepFreeze` | libs/transactions/src/frozen.ts:1-12 | everything reachable is frozen if and only if nothing was shielded by an object frozen before; nothing else is touched |
| `Frozen.AFrozenObjectIsNotEntered` | libs/transactions/src/frozen.ts:7-7 | called on a frozen object it changes nothing anywhere |
| `Frozen.FreezeACycle` | libs/transactions/src/frozen.ts:6-12 | two objects that hold each other are both frozen |
| `SchemaPaths.EditsCommute` | libs/http-edge/src/schema-paths.ts:15-35 | two edits commute on every tree and pair of paths if and only if they are not a removal and a redaction of the root |
| `SchemaPaths.EditTwice` | libs/http-edge/src/schema-paths.ts:15-40 | editing again along the same path changes nothing more |
| `SchemaPaths.SegmentsSelect` | libs/http-edge/src/schema-paths.ts:21-30 | `[]` selects every index and no key, `*` every key and no index, a name its own key |
| `SchemaPaths.OnlyTheSetMatters` | libs/http-edge/src/schema-paths.ts:74-79 | without such a pair the result depends on the set of changes alone, not on order or repeats |
| `SchemaPaths.OrderMattersExactlyForAClash` | libs/http-edge/src/schema-paths.ts:15-40 | it does so if and only if there is no such pair among them |
| `SchemaPaths.OneActionNeverClashes` | libs/http-edge/src/schema-paths.ts:74-79 | so the order of the reduce, which makes one kind of change, is irrelevant |
| `SchemaPaths.EditChangesOnlyWhatIsSelected` | libs/http-edge/src/schema-paths.ts:15-40 | what every position holds afterwards: nothing at or below a removed one, the mark at a redacted one, the old value off the path |
| `SchemaPaths.SameProjectionExactly` | libs/http-edge/src/schema-paths.ts:37-40 | two bodies project to the same body if and only if they differ only at the removed positions |
| `Reconciliation.LastOffsets` | libs/messaging/src/republish.ts:139-142 | the last offset of exactly the partitions that hold something |
| `Reconciliation.Drain` | libs/messaging/src/republish.ts:153-169 | gathers the ids of the messages read and stops once every partition was read to its end, not before |
| `Reconciliation.LeftUntilReadThrough` | libs/messaging/src/republish.ts:153-160 | a partition stays to be read exactly until its own last offset came, whatever the others do |
| `Reconciliation.ReadThroughMissesNothing` | libs/messaging/src/republish.ts:153-160 | a partition read to its end had every record below it delivered, whatever the interleaving |
| `Reconciliation.ReadPublishedIds` | libs/messaging/src/republish.ts:126-179 | a normal return holds the id of every record below the end offsets seen at the start and no id the topic has not; there is none exactly when some partition was not read through |
| `Reconciliation.ReadTopics` | libs/messaging/src/republish.ts:62-65 | every topic the rows name was read to its end, or there is no answer |
| `Reconciliation.FilteredKeepsOrder` | libs/messaging/src/republish.ts:67-68 | rows are reported in the order of the query |
| `Reconciliation.FindUnpublished` | libs/messaging/src/republish.ts:39-78 | the rows older than the settling time and no older than the horizon that are absent from what was read, and how many were checked; each reported row is on no record its topic had, one not reported is on its topic; no verdict exactly when a topic was not read to its end |
| `Reconciliation.Outbox.Republish` | libs/messaging/src/republish.ts:91-118 | the row is routed once more under its own id and the table is as it was; false and nothing for an unknown id |
| `ConditionalGet.SplittingDecidesTheCondition` | apps/bff-storefront/src/conditional-get.ts:11-18 | for every well-formed header, or none, and every tag without a comma, splitting gives the verdict of the standard, commas in the other tags included |
| `ConditionalGet.SplittingDecidesExactlyWithoutACommaInTheTag` | apps/bff-storefront/src/conditional-get.ts:14-18 | it does so for every field value if and only if the tag holds no comma |
| `ConditionalGet.ServerTagsAreDecided` | apps/bff-storefront/src/conditional-get.ts:6-18 | so it does for every tag the server produces |

## Left out

- Kafka, Postgres, Debezium and KafkaJS themselves: only the guarantees listed above are used.
- The decision tables of `@arthome/core`: parameters; no table is invented.
- `Replay`: reduced to how many a date opened and from which end; going online, expiry and its own events are not modelled.
- `transitionIn` and `declareIn`: the public row and the outbox rows they project; the replay is a refusal that may come or not.
- `LearnReplayAssetFact`, the protobuf readers and the UUID tests of message and date ids: decoding, with no state of its own.
- `DateRepositories.RowsRoundTrip`: does not cover `toISOString` and `new Date`, because an instant is the same number in a row and in a snapshot.
- Instants are milliseconds, so their ISO texts, `Date.parse` and time zones are not modelled; a not-before header that is not an instant counts as absent.
- The jitter is computed over reals, not over binary floating point.
- `expires_at` of an idempotency record: a purge may remove a committed record at any time, which covers every expiry.
- `fingerprintOf` and the entity tag's digest: hashing; fingerprints and digests are given texts.
- `segmentsOf` and `sensitivePathsFrom`: the text of a path and the cache of a schema's paths; paths are lists of segments.
- `slugify` and a show's own slug: no property of the dates rests on them.
- `purgeOutbox`: its replication-lag gate is a proxy whose safety is an assumption on the database.
- `Backoff.Process.WaitUntilDue`: the heartbeat is a call that takes time; a heartbeat that throws ends the wait like any interruption and is covered in `Delivery` alone.
- `Frozen.Freeze`: the values of an object do not change during the call, and a value `Object.freeze` itself refuses is not modelled.
- Nest modules, controllers, guards, sessions and tokens, schemas, migrations and health probes: wiring and data definitions.
