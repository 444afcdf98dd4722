/**
 * The consumer delivery protocol as a step system: source partitions, the service's retry topic and
 * its dead-letter topic, the offsets of its two consumer groups, the messages in flight, and the
 * deduplication ledger its handlers claim in their own transaction.
 *
 * A run is any sequence of enabled steps, so every interleaving of partitions, crashes, rebalances,
 * shutdowns and failed republications is one.
 */
module Delivery {
  import opened Options
  import opened Failure
  import opened Dispatch

  /** The service's name and the topics `runConsumers` was given handlers for. */
  datatype Config = Config(service: string, sources: set<string>)

  ghost predicate WellConfigured(c: Config) {
    && RetryTopic(c.service) !in c.sources
    && DeadLetterTopic(c.service) !in c.sources
  }

  datatype Partition = Partition(topic: string, index: nat)

  datatype Position = Position(partition: Partition, offset: nat)

  /**
   * A message at rest. `source` is the source message it is, or is a copy of; `parent` the record it
   * was copied from; `calledAt` the clock `dispatch` was given for its parent's attempt, read before
   * the handler ran; `failedAt` the moment that attempt threw; `draw` the jitter's draw.
   */
  datatype Record = Record(
    message: Message, source: Position, parent: Position, calledAt: int, failedAt: int, draw: real)

  datatype Phase =
    | Waiting                              // fetched; a retry sits out its backoff here
    | Running(since: int)                  // the handler was called, at the clock `dispatch` was given
    | Failed(error: Error, calledAt: int, failedAt: int)  // it threw, and its transaction rolled back
    | Sent                                 // the copy is acknowledged
    | Settled                              // the handler answered
    | Unhandled                            // no handler for the origin: ignored

  datatype Flight = Flight(offset: nat, phase: Phase)

  /** A delivery whose partition was taken away while it ran: it goes on, and its return resolves nothing. */
  datatype Detached = Detached(at: Position, phase: Phase)

  /** Who runs a delivery: the consumer the partition is assigned to, or one it was assigned to before. */
  datatype Worker = Owner(partition: Partition) | Stray(number: nat)

  /** One call of a handler. */
  datatype Call = Call(position: Position, source: Position, attempt: nat, at: int)

  datatype State = State(
    logs: map<Partition, seq<Record>>,
    deadLetters: seq<Record>,
    committed: map<Partition, nat>,
    resolved: map<Partition, nat>,
    flights: map<Partition, Flight>,
    strays: map<nat, Detached>,
    ledger: set<string>,
    effects: seq<string>,
    retired: set<string>,
    answered: set<Position>,
    calls: seq<Call>,
    now: int)

  function Log(s: State, p: Partition): seq<Record> { if p in s.logs then s.logs[p] else [] }

  /** What a restart resumes from. */
  function Committed(s: State, p: Partition): nat { if p in s.committed then s.committed[p] else 0 }

  /** The next offset the running consumer takes: `eachMessage` returned for all before it. */
  function Resolved(s: State, p: Partition): nat { if p in s.resolved then s.resolved[p] else 0 }

  function Initial(now: int): State {
    State(map[], [], map[], map[], map[], map[], {}, [], {}, {}, [], now)
  }

  predicate IsSource(c: Config, p: Partition) { p.topic in c.sources }

  predicate IsRetry(c: Config, p: Partition) { p.topic == RetryTopic(c.service) }

  predicate IsConsumed(c: Config, p: Partition) { IsSource(c, p) || IsRetry(c, p) }

  predicate Stored(s: State, at: Position) { at.offset < |Log(s, at.partition)| }

  function RecordAt(s: State, at: Position): Record
    requires Stored(s, at)
  {
    Log(s, at.partition)[at.offset]
  }

  function Attempt(r: Record): nat { AttemptsSoFar(r.message.headers) }

  /** A record a consumer may still take: its offset has not been resolved. */
  predicate Pending(s: State, at: Position) {
    Stored(s, at) && Resolved(s, at.partition) <= at.offset
  }

  /** A record a restarted consumer may still take: its offset has not been committed. */
  predicate Deliverable(s: State, at: Position) {
    Stored(s, at) && Committed(s, at.partition) <= at.offset
  }

  predicate Flying(s: State, p: Partition) {
    p in s.flights && s.flights[p].offset < |Log(s, p)|
  }

  function FlightPosition(s: State, p: Partition): Position
    requires p in s.flights
  {
    Position(p, s.flights[p].offset)
  }

  predicate Working(s: State, who: Worker) {
    match who
    case Owner(p) => Flying(s, p)
    case Stray(n) => n in s.strays && Stored(s, s.strays[n].at)
  }

  /** The position of the record a worker is at, that record, and how far its delivery has come. */
  function At(s: State, who: Worker): (at: Position)
    requires Working(s, who)
    ensures Stored(s, at)
  {
    match who
    case Owner(p) => FlightPosition(s, p)
    case Stray(n) => s.strays[n].at
  }

  function InHand(s: State, who: Worker): Record
    requires Working(s, who)
  {
    RecordAt(s, At(s, who))
  }

  function PhaseOf(s: State, who: Worker): Phase
    requires Working(s, who)
  {
    match who
    case Owner(p) => s.flights[p].phase
    case Stray(n) => s.strays[n].phase
  }

  function PayloadOf(p: Partition, r: Record): Payload { Payload(p.topic, r.message) }

  predicate HasHandler(c: Config, p: Partition, r: Record) { HandlingTopic(PayloadOf(p, r)) in c.sources }

  /** The retry consumer honours the not-before; the main one does not look at it. */
  predicate Due(c: Config, s: State, p: Partition, r: Record) {
    IsRetry(c, p) ==> NotBefore(r.message.headers).None? || NotBefore(r.message.headers).value <= s.now
  }

  // ---------- the steps ----------

  /** Why a delivery ended without `eachMessage` returning. */
  datatype Interruption = ShutdownDuringBackoff | RepublishNotAcknowledged | Crash

  datatype Step =
    | Produce(partition: Partition, message: Message)  // the outbox, or an operator republishing a row
    | Fetch(partition: Partition)
    | CallHandler(who: Worker)
    | Answer(who: Worker, outcome: Outcome, claims: bool)
    | Throw(who: Worker, error: Error)
    | FindNoHandler(who: Worker)
    | Republish(who: Worker, target: Partition, draw: real)
    | Return(partition: Partition)                     // `eachMessage` returns: the offset resolves
    | CommitOffset(partition: Partition, offset: nat)
    | Interrupt(partition: Partition, why: Interruption, resume: nat)
    | Reassign(partition: Partition, number: nat, resume: nat)  // a rebalance: the delivery goes on, detached
    | End(number: nat)                                 // a detached delivery returned, or its process died
    | PurgeLedger(id: string)
    | Tick(now: int)

  predicate HasFailed(s: State, who: Worker) { Working(s, who) && PhaseOf(s, who).Failed? }

  /** The delivery is over: only the return of `eachMessage` is left. */
  predicate HasEnded(s: State, p: Partition) {
    Flying(s, p) && (s.flights[p].phase.Settled? || s.flights[p].phase.Sent? || s.flights[p].phase.Unhandled?)
  }

  /** An id is at large while a record holding it may be taken, or a detached delivery is at one. */
  ghost predicate AtLarge(c: Config, s: State, id: string) {
    || (exists at: Position ::
          IsConsumed(c, at.partition) && Deliverable(s, at) && MessageId(RecordAt(s, at).message) == Some(id))
    || (exists n :: Working(s, Stray(n)) && MessageId(InHand(s, Stray(n)).message) == Some(id))
  }

  /**
   * What the handler's transaction may do, by its answer: claim and apply together, claim without an
   * effect, find the claim taken, or leave a message that is not its own, having claimed it or not.
   */
  predicate MayAnswer(s: State, message: Message, outcome: Outcome, claims: bool) {
    var id := MessageId(message);
    && (claims ==> id.Some? && id.value !in s.ledger)
    && match outcome
       case Applied => claims
       case Superseded => claims
       case Duplicate => !claims && id.Some? && id.value in s.ledger
       case Ignored => true
  }

  /** A worker may start on its record: its wait is over, and a handler is there for it or is not. */
  predicate MayStart(c: Config, s: State, who: Worker, handled: bool) {
    && Working(s, who) && PhaseOf(s, who).Waiting?
    && HasHandler(c, At(s, who).partition, InHand(s, who)) == handled
    && Due(c, s, At(s, who).partition, InHand(s, who))
  }

  ghost predicate Enabled(c: Config, s: State, step: Step) {
    match step
    case Produce(p, message) =>
      && IsSource(c, p) && Unmarked(message)
      && (MessageId(message).Some? ==> MessageId(message).value !in s.retired)
    case Fetch(p) => IsConsumed(c, p) && p !in s.flights && Resolved(s, p) < |Log(s, p)|
    case CallHandler(who) => MayStart(c, s, who, true)
    case Answer(who, outcome, claims) =>
      Working(s, who) && PhaseOf(s, who).Running? && MayAnswer(s, InHand(s, who).message, outcome, claims)
    case Throw(who, _) => Working(s, who) && PhaseOf(s, who).Running?
    case FindNoHandler(who) => MayStart(c, s, who, false)
    case Republish(who, target, draw) => HasFailed(s, who) && IsRetry(c, target) && Draw(draw)
    case Return(p) => HasEnded(s, p)
    case CommitOffset(p, offset) => Committed(s, p) <= offset <= Resolved(s, p)
    case Interrupt(p, why, resume) =>
      && Flying(s, p) && Committed(s, p) <= resume <= Resolved(s, p)
      && (why.ShutdownDuringBackoff? ==> s.flights[p].phase.Waiting?)
      && (why.RepublishNotAcknowledged? ==> s.flights[p].phase.Failed? || s.flights[p].phase.Sent?)
    case Reassign(p, number, resume) =>
      Flying(s, p) && Committed(s, p) <= resume <= Resolved(s, p) && number !in s.strays
    case End(number) => number in s.strays
    case PurgeLedger(id) => id in s.ledger && !AtLarge(c, s, id)
    case Tick(now) => s.now <= now
  }

  function Append(s: State, p: Partition, r: Record): State {
    s.(logs := s.logs[p := Log(s, p) + [r]])
  }

  function SetPhase(s: State, who: Worker, phase: Phase): State
    requires Working(s, who)
  {
    match who
    case Owner(p) => s.(flights := s.flights[p := s.flights[p].(phase := phase)])
    case Stray(n) => s.(strays := s.strays[n := s.strays[n].(phase := phase)])
  }

  function RouteOf(r: Record, phase: Phase, draw: real): FailureRoute
    requires phase.Failed? && Draw(draw)
  {
    RouteFailure(phase.error, Attempt(r), phase.calledAt, draw)
  }

  function CopyOf(s: State, who: Worker, draw: real): Record
    requires HasFailed(s, who) && Draw(draw)
  {
    var at, r, phase := At(s, who), InHand(s, who), PhaseOf(s, who);
    Record(CopyFor(PayloadOf(at.partition, r), phase.error, RouteOf(r, phase, draw)),
           r.source, at, phase.calledAt, phase.failedAt, draw)
  }

  function Take(c: Config, s: State, step: Step): State
    requires Enabled(c, s, step)
  {
    match step
    case Produce(p, message) =>
      var at := Position(p, |Log(s, p)|);
      Append(s, p, Record(message, at, at, 0, 0, 0.0))
    case Fetch(p) => s.(flights := s.flights[p := Flight(Resolved(s, p), Waiting)])
    case CallHandler(who) =>
      var r := InHand(s, who);
      SetPhase(s, who, Running(s.now)).(calls := s.calls + [Call(At(s, who), r.source, Attempt(r), s.now)])
    case Answer(who, outcome, claims) =>
      var r := InHand(s, who);
      var claimed := if claims then {MessageId(r.message).value} else {};
      var applied := if outcome.Applied? then [MessageId(r.message).value] else [];
      SetPhase(s, who, Settled).(ledger := s.ledger + claimed, effects := s.effects + applied,
                                 answered := s.answered + {r.source})
    case Throw(who, error) => SetPhase(s, who, Failed(error, PhaseOf(s, who).since, s.now))
    case FindNoHandler(who) => SetPhase(s, who, Unhandled)
    case Republish(who, target, draw) =>
      var copy := CopyOf(s, who, draw);
      var sent := SetPhase(s, who, Sent);
      if RouteOf(InHand(s, who), PhaseOf(s, who), draw).Retry? then Append(sent, target, copy)
      else sent.(deadLetters := s.deadLetters + [copy])
    case Return(p) =>
      s.(resolved := s.resolved[p := s.flights[p].offset + 1], flights := s.flights - {p})
    case CommitOffset(p, offset) => s.(committed := s.committed[p := offset])
    case Interrupt(p, _, resume) => s.(resolved := s.resolved[p := resume], flights := s.flights - {p})
    case Reassign(p, number, resume) =>
      s.(resolved := s.resolved[p := resume], flights := s.flights - {p},
         strays := s.strays[number := Detached(FlightPosition(s, p), s.flights[p].phase)])
    case End(number) => s.(strays := s.strays - {number})
    case PurgeLedger(id) => s.(ledger := s.ledger - {id}, retired := s.retired + {id})
    case Tick(now) => s.(now := now)
  }

  /** The state a run leads to, or nothing when some step of it was not enabled. */
  ghost function After(c: Config, start: int, run: seq<Step>): Option<State> {
    if run == [] then Some(Initial(start))
    else
      match After(c, start, run[..|run| - 1])
      case None => None
      case Some(s) =>
        var step := run[|run| - 1];
        if Enabled(c, s, step) then Some(Take(c, s, step)) else None
  }

  // ---------- what every record is ----------

  ghost predicate OffsetsOf(c: Config, s: State, p: Partition) {
    && Committed(s, p) <= Resolved(s, p) <= |Log(s, p)|
    && (p in s.flights ==> IsConsumed(c, p) && Flying(s, p) && s.flights[p].offset == Resolved(s, p))
    && (Log(s, p) != [] ==> IsConsumed(c, p))
  }

  /** A detached delivery is at a stored record of a topic that is consumed. */
  ghost predicate StrayIsPlaced(c: Config, s: State, n: nat) {
    n in s.strays ==> Stored(s, s.strays[n].at) && IsConsumed(c, s.strays[n].at.partition)
  }

  ghost predicate Offsets(c: Config, s: State) {
    && (forall p :: OffsetsOf(c, s, p))
    && (forall n :: StrayIsPlaced(c, s, n))
  }

  lemma WorkersAreOnConsumedTopics(c: Config, s: State, who: Worker)
    requires Offsets(c, s) && Working(s, who)
    ensures IsConsumed(c, At(s, who).partition)
  {
    match who
    case Owner(p) => assert OffsetsOf(c, s, p);
    case Stray(n) => assert StrayIsPlaced(c, s, n);
  }

  /** A source record is its own source, and carries none of the service's headers. */
  ghost predicate SourceRecord(at: Position, r: Record) {
    r.source == at && Unmarked(r.message)
  }

  /** What a copy keeps of its source: content, id and first topic. */
  ghost predicate FaithfulCopy(c: Config, s: State, r: Record) {
    && IsSource(c, r.source.partition) && Stored(s, r.source)
    && SameContent(r.message, RecordAt(s, r.source).message)
    && Raw(r.message.headers, ORIGIN_HEADER) == Text(r.source.partition.topic)
  }

  /** A retry copy: one attempt after its parent, due in the window that attempt's delay gives. */
  ghost predicate RetryRecord(c: Config, s: State, r: Record) {
    && FaithfulCopy(c, s, r)
    && 1 <= Attempt(r) <= |RETRY_DELAYS_MS|
    && Stored(s, r.parent) && IsConsumed(c, r.parent.partition)
    && RecordAt(s, r.parent).source == r.source
    && Attempt(RecordAt(s, r.parent)) + 1 == Attempt(r)
    && InWindow(r)
  }

  /** Its not-before is the clock `dispatch` was given and the delay of its attempt, jittered by its draw. */
  ghost predicate InWindow(r: Record) {
    && 1 <= Attempt(r) <= |RETRY_DELAYS_MS| && Draw(r.draw)
    && NotBefore(r.message.headers) == NextAttemptAt(Attempt(r), r.calledAt, RETRY_DELAYS_MS, r.draw)
  }

  ghost predicate Records(c: Config, s: State) {
    && (forall at: Position :: Stored(s, at) && IsSource(c, at.partition) ==> SourceRecord(at, RecordAt(s, at)))
    && (forall at: Position :: Stored(s, at) && IsRetry(c, at.partition) ==> RetryRecord(c, s, RecordAt(s, at)))
    && (forall i :: 0 <= i < |s.deadLetters| ==> FaithfulCopy(c, s, s.deadLetters[i]))
  }

  lemma UnmarkedHasNoAttempt(message: Message)
    requires Unmarked(message)
    ensures AttemptsSoFar(message.headers) == 0
    ensures Raw(message.headers, ORIGIN_HEADER) == Absent
  {
    assert ATTEMPT_HEADER in OWN_HEADERS && ORIGIN_HEADER in OWN_HEADERS;
  }

  /** The copy of any consumed record is faithful, and one attempt on when it is a retry. */
  lemma CopyIsARetryRecord(c: Config, s: State, who: Worker, draw: real)
    requires WellConfigured(c) && Offsets(c, s) && Records(c, s)
    requires HasFailed(s, who) && Draw(draw)
    ensures FaithfulCopy(c, s, CopyOf(s, who, draw))
    ensures RouteOf(InHand(s, who), PhaseOf(s, who), draw).Retry? ==> RetryRecord(c, s, CopyOf(s, who, draw))
  {
    var at, r, phase := At(s, who), InHand(s, who), PhaseOf(s, who);
    WorkersAreOnConsumedTopics(c, s, who);
    CopyKeepsTheMessage(PayloadOf(at.partition, r), phase.error, phase.calledAt, draw);
    if IsSource(c, at.partition) {
      UnmarkedHasNoAttempt(r.message);
    }
  }

  /** The record `dispatch` appends for a worker's failure, and the topic it appends it to. */
  ghost function DispatchedFor(c: Config, s: State, who: Worker, draw: real): Published
    requires HasFailed(s, who) && Draw(draw)
  {
    var phase := PhaseOf(s, who);
    PublicationFor(c.service, PayloadOf(At(s, who).partition, InHand(s, who)), phase.error, phase.calledAt, draw)
  }

  /**
   * A republication is what `dispatch` does: the message it appends goes on a retry partition when it
   * was sent to the retry topic and among the dead letters when it was sent to that topic, and it is
   * sent to the retry topic exactly when the failure is transient with attempts left.
   */
  lemma RepublishIsDispatch(c: Config, s: State, who: Worker, target: Partition, draw: real)
    requires Enabled(c, s, Republish(who, target, draw))
    ensures var t, sent := Take(c, s, Republish(who, target, draw)), DispatchedFor(c, s, who, draw);
      var comesBack := PhaseOf(s, who).error.Transient? && Attempt(InHand(s, who)) < |RETRY_DELAYS_MS|;
      && InItsPlace(sent, c.service, PayloadOf(At(s, who).partition, InHand(s, who)), PhaseOf(s, who).error, PhaseOf(s, who).calledAt)
      && (comesBack ==>
            && sent.topic == RetryTopic(c.service) == target.topic && t.deadLetters == s.deadLetters
            && |Log(t, target)| == |Log(s, target)| + 1 && Log(t, target)[|Log(s, target)|].message == sent.message)
      && (!comesBack ==>
            && sent.topic == DeadLetterTopic(c.service) && t.logs == s.logs
            && |t.deadLetters| == |s.deadLetters| + 1 && t.deadLetters[|s.deadLetters|].message == sent.message)
  {
    var r, phase := InHand(s, who), PhaseOf(s, who);
    PublicationIsInItsPlace(c.service, PayloadOf(At(s, who).partition, r), phase.error, phase.calledAt, draw);
    TopicsAreTheServicesOwn(c.service, c.service);
  }

  /** Stored records stay where they are: logs only grow. */
  ghost predicate Grows(s: State, t: State) {
    forall at: Position :: Stored(s, at) ==> Stored(t, at) && RecordAt(t, at) == RecordAt(s, at)
  }

  /** What a step adds to a partition: a produced message, a retry copy, or nothing. */
  ghost function Added(c: Config, s: State, step: Step, p: Partition): seq<Record>
    requires Enabled(c, s, step)
  {
    if step.Produce? && step.partition == p then
      var at := Position(p, |Log(s, p)|);
      [Record(step.message, at, at, 0, 0, 0.0)]
    else if step.Republish? && step.target == p && RouteOf(InHand(s, step.who), PhaseOf(s, step.who), step.draw).Retry? then
      [CopyOf(s, step.who, step.draw)]
    else []
  }

  lemma LogAfter(c: Config, s: State, step: Step, p: Partition)
    requires Enabled(c, s, step)
    ensures Log(Take(c, s, step), p) == Log(s, p) + Added(c, s, step, p)
  {
    if Works(step) {
      SettingAPhaseKeepsPlaces(s, step.who, NextPhase(s, step));
    }
  }

  lemma StepGrows(c: Config, s: State, step: Step)
    requires Enabled(c, s, step)
    ensures Grows(s, Take(c, s, step))
  {
    forall at: Position | Stored(s, at)
      ensures Stored(Take(c, s, step), at) && RecordAt(Take(c, s, step), at) == RecordAt(s, at)
    {
      LogAfter(c, s, step, at.partition);
    }
  }

  /** A worker's own steps: none moves a worker, or an offset. */
  predicate Works(step: Step) {
    step.CallHandler? || step.Answer? || step.Throw? || step.FindNoHandler? || step.Republish?
  }

  ghost predicate SamePlaces(s: State, t: State) {
    && t.resolved == s.resolved && t.committed == s.committed && t.now == s.now && t.retired == s.retired
    && (forall p :: p in t.flights <==> p in s.flights)
    && (forall p :: p in t.flights ==> t.flights[p].offset == s.flights[p].offset)
    && (forall n :: n in t.strays <==> n in s.strays)
    && (forall n :: n in t.strays ==> t.strays[n].at == s.strays[n].at)
  }

  lemma SettingAPhaseKeepsPlaces(s: State, who: Worker, phase: Phase)
    requires Working(s, who)
    ensures SamePlaces(s, SetPhase(s, who, phase))
    ensures SetPhase(s, who, phase) == s.(flights := SetPhase(s, who, phase).flights, strays := SetPhase(s, who, phase).strays)
  {
  }

  /** The phase a worker's step leaves its delivery in. */
  function NextPhase(s: State, step: Step): Phase
    requires Works(step) && Working(s, step.who) && (step.Throw? ==> PhaseOf(s, step.who).Running?)
  {
    match step
    case CallHandler(_) => Running(s.now)
    case Answer(_, _, _) => Settled
    case Throw(who, error) => Failed(error, PhaseOf(s, who).since, s.now)
    case FindNoHandler(_) => Unhandled
    case Republish(_, _, _) => Sent
  }

  lemma WorkKeepsPlaces(c: Config, s: State, step: Step)
    requires Enabled(c, s, step) && Works(step)
    ensures SamePlaces(s, Take(c, s, step))
    ensures Take(c, s, step).flights == SetPhase(s, step.who, NextPhase(s, step)).flights
    ensures Take(c, s, step).strays == SetPhase(s, step.who, NextPhase(s, step)).strays
  {
    SettingAPhaseKeepsPlaces(s, step.who, NextPhase(s, step));
  }

  lemma OthersKeepTheirPhase(s: State, who: Worker, phase: Phase, other: Worker)
    requires Working(s, who) && Working(s, other) && other != who
    ensures Working(SetPhase(s, who, phase), other) && PhaseOf(SetPhase(s, who, phase), other) == PhaseOf(s, other)
  {
  }

  lemma StepKeepsOffsetsOf(c: Config, s: State, step: Step, p: Partition)
    requires WellConfigured(c) && OffsetsOf(c, s, p) && Enabled(c, s, step)
    ensures OffsetsOf(c, Take(c, s, step), p)
  {
    LogAfter(c, s, step, p);
    if Works(step) {
      WorkKeepsPlaces(c, s, step);
    }
  }

  lemma StepKeepsStrayPlaced(c: Config, s: State, step: Step, n: nat)
    requires StrayIsPlaced(c, s, n) && Enabled(c, s, step)
    requires step.Reassign? ==> OffsetsOf(c, s, step.partition)
    ensures StrayIsPlaced(c, Take(c, s, step), n)
  {
    StepGrows(c, s, step);
    if Works(step) {
      WorkKeepsPlaces(c, s, step);
    }
  }

  /** The worker that is this one after the step, before it. */
  ghost function WorkerBefore(step: Step, who: Worker): Worker {
    if step.Reassign? && who == Stray(step.number) then Owner(step.partition) else who
  }

  predicate Fetches(step: Step, who: Worker) { step.Fetch? && who == Owner(step.partition) }

  lemma OwnerWasThere(c: Config, s: State, step: Step, p: Partition)
    requires OffsetsOf(c, s, p) && Enabled(c, s, step) && Flying(Take(c, s, step), p) && step != Fetch(p)
    ensures Flying(s, p) && FlightPosition(Take(c, s, step), p) == FlightPosition(s, p)
  {
    if Works(step) {
      WorkKeepsPlaces(c, s, step);
    }
  }

  lemma StrayWasThere(c: Config, s: State, step: Step, n: nat)
    requires StrayIsPlaced(c, s, n) && Enabled(c, s, step) && n in Take(c, s, step).strays
    ensures Working(s, WorkerBefore(step, Stray(n)))
    ensures Take(c, s, step).strays[n].at == At(s, WorkerBefore(step, Stray(n)))
  {
    if Works(step) {
      WorkKeepsPlaces(c, s, step);
    }
  }

  /** Unless it has just fetched, a worker is at the record it was at. */
  lemma WorkerWasThere(c: Config, s: State, step: Step, who: Worker)
    requires Offsets(c, s) && Enabled(c, s, step) && Working(Take(c, s, step), who) && !Fetches(step, who)
    ensures Working(s, WorkerBefore(step, who))
    ensures At(Take(c, s, step), who) == At(s, WorkerBefore(step, who))
    ensures InHand(Take(c, s, step), who) == InHand(s, WorkerBefore(step, who))
  {
    match who
    case Owner(p) =>
      assert OffsetsOf(c, s, p);
      OwnerWasThere(c, s, step, p);
    case Stray(n) =>
      assert StrayIsPlaced(c, s, n);
      StrayWasThere(c, s, step, n);
    StepGrows(c, s, step);
  }

  /** And, unless the step is its own, as far as it was. */
  lemma WorkerWasAsFar(c: Config, s: State, step: Step, who: Worker)
    requires Offsets(c, s) && Enabled(c, s, step) && Working(Take(c, s, step), who) && !Fetches(step, who)
    requires !(Works(step) && step.who == who)
    ensures Working(s, WorkerBefore(step, who))
    ensures PhaseOf(Take(c, s, step), who) == PhaseOf(s, WorkerBefore(step, who))
  {
    WorkerWasThere(c, s, step, who);
    if Works(step) {
      WorkKeepsPlaces(c, s, step);
      OthersKeepTheirPhase(s, step.who, NextPhase(s, step), who);
    }
  }

  lemma StepKeepsOffsets(c: Config, s: State, step: Step)
    requires WellConfigured(c) && Offsets(c, s) && Enabled(c, s, step)
    ensures Offsets(c, Take(c, s, step))
  {
    if step.Reassign? {
      assert OffsetsOf(c, s, step.partition);
    }
    forall p ensures OffsetsOf(c, Take(c, s, step), p) {
      assert OffsetsOf(c, s, p);
      StepKeepsOffsetsOf(c, s, step, p);
    }
    forall n ensures StrayIsPlaced(c, Take(c, s, step), n) {
      assert StrayIsPlaced(c, s, n);
      StepKeepsStrayPlaced(c, s, step, n);
    }
  }

  lemma GrowthKeepsCopies(c: Config, s: State, t: State, r: Record)
    requires Grows(s, t)
    ensures FaithfulCopy(c, s, r) ==> FaithfulCopy(c, t, r)
    ensures RetryRecord(c, s, r) ==> RetryRecord(c, t, r)
  {
  }

  /** Only a producer or a republication adds a record, and this is the record it adds. */
  lemma NewRecord(c: Config, s: State, step: Step, at: Position)
    requires Enabled(c, s, step) && Stored(Take(c, s, step), at) && !Stored(s, at)
    ensures step.Produce? || (step.Republish? && IsRetry(c, at.partition))
    ensures at == Position(if step.Produce? then step.partition else step.target, |Log(s, at.partition)|)
    ensures step.Produce? ==> IsSource(c, at.partition) && SourceRecord(at, RecordAt(Take(c, s, step), at))
    ensures step.Republish? ==>
              && RecordAt(Take(c, s, step), at) == CopyOf(s, step.who, step.draw)
              && RouteOf(InHand(s, step.who), PhaseOf(s, step.who), step.draw).Retry?
  {
    LogAfter(c, s, step, at.partition);
  }

  lemma StepKeepsRecord(c: Config, s: State, step: Step, at: Position)
    requires WellConfigured(c) && Offsets(c, s) && Records(c, s) && Enabled(c, s, step)
    requires Stored(Take(c, s, step), at)
    ensures IsSource(c, at.partition) ==> SourceRecord(at, RecordAt(Take(c, s, step), at))
    ensures IsRetry(c, at.partition) ==> RetryRecord(c, Take(c, s, step), RecordAt(Take(c, s, step), at))
  {
    var t := Take(c, s, step);
    StepGrows(c, s, step);
    if !Stored(s, at) {
      NewRecord(c, s, step, at);
      if step.Republish? {
        CopyIsARetryRecord(c, s, step.who, step.draw);
      }
    }
    GrowthKeepsCopies(c, s, t, RecordAt(t, at));
  }

  /** Only a republication adds a dead letter, and it is the copy. */
  lemma DeadLettersAfter(c: Config, s: State, step: Step)
    requires Enabled(c, s, step)
    ensures
      || Take(c, s, step).deadLetters == s.deadLetters
      || (step.Republish? && Take(c, s, step).deadLetters == s.deadLetters + [CopyOf(s, step.who, step.draw)])
  {
    if Works(step) {
      SettingAPhaseKeepsPlaces(s, step.who, NextPhase(s, step));
    }
  }

  lemma StepKeepsDeadLettersFaithful(c: Config, s: State, step: Step, i: nat)
    requires WellConfigured(c) && Offsets(c, s) && Records(c, s) && Enabled(c, s, step)
    requires i < |Take(c, s, step).deadLetters|
    ensures FaithfulCopy(c, Take(c, s, step), Take(c, s, step).deadLetters[i])
  {
    var letter := Take(c, s, step).deadLetters[i];
    StepGrows(c, s, step);
    DeadLettersAfter(c, s, step);
    if step.Republish? && i == |s.deadLetters| {
      CopyIsARetryRecord(c, s, step.who, step.draw);
    } else {
      assert letter == s.deadLetters[i];
    }
    GrowthKeepsCopies(c, s, Take(c, s, step), letter);
  }

  lemma StepKeepsRecords(c: Config, s: State, step: Step)
    requires WellConfigured(c) && Offsets(c, s) && Records(c, s) && Enabled(c, s, step)
    ensures Records(c, Take(c, s, step))
  {
    var t := Take(c, s, step);
    forall at: Position | Stored(t, at)
      ensures IsSource(c, at.partition) ==> SourceRecord(at, RecordAt(t, at))
      ensures IsRetry(c, at.partition) ==> RetryRecord(c, t, RecordAt(t, at))
    {
      StepKeepsRecord(c, s, step, at);
    }
    forall i | 0 <= i < |t.deadLetters| ensures FaithfulCopy(c, t, t.deadLetters[i]) {
      StepKeepsDeadLettersFaithful(c, s, step, i);
    }
  }

  // ---------- over whole runs ----------

  lemma AfterOneMore(c: Config, start: int, run: seq<Step>, step: Step)
    requires After(c, start, run).Some?
    ensures After(c, start, run + [step]) ==
              if Enabled(c, After(c, start, run).value, step) then Some(Take(c, After(c, start, run).value, step)) else None
  {
    assert (run + [step])[..|run|] == run;
  }

  ghost predicate Sound(c: Config, s: State) {
    Offsets(c, s) && Records(c, s)
  }

  /**
   * In every state of every run a copy keeps its source's key, value, foreign headers (so its
   * message id) and first topic, and a retry is one attempt after the record it was copied from.
   */
  lemma {:induction false} EveryRunIsSound(c: Config, start: int, run: seq<Step>)
    requires WellConfigured(c) && After(c, start, run).Some?
    ensures Sound(c, After(c, start, run).value)
  {
    if run != [] {
      var before := run[..|run| - 1];
      EveryRunIsSound(c, start, before);
      StepKeepsOffsets(c, After(c, start, before).value, run[|run| - 1]);
      StepKeepsRecords(c, After(c, start, before).value, run[|run| - 1]);
    }
  }
}
