/** Retry chains: how the attempts follow each other, when they run, and how many there are. */
module DeliveryChains {
  import opened Options
  import opened Failure
  import opened Dispatch
  import opened Delivery
  import opened DeliveryRuns

  // ---------- when a copy runs ----------

  ghost predicate Recorded(s: State, at: Position, when: int) {
    exists i :: 0 <= i < |s.calls| && s.calls[i].position == at && s.calls[i].at == when
  }

  /** A call was made on a stored record, and on the retry topic not before that record was due. */
  ghost predicate CallIsOnTime(c: Config, s: State, call: Call) {
    && IsConsumed(c, call.position.partition) && Stored(s, call.position)
    && var r := RecordAt(s, call.position);
       && call.source == r.source && call.attempt == Attempt(r)
       && (IsRetry(c, call.position.partition) ==>
             NotBefore(r.message.headers).Some? && NotBefore(r.message.headers).value <= call.at <= s.now)
  }

  /** The clock a delivery in progress was dispatched at is that of its own call. */
  ghost predicate PhaseIsRecorded(s: State, who: Worker) {
    Working(s, who) ==>
      && (PhaseOf(s, who).Running? ==>
            Recorded(s, At(s, who), PhaseOf(s, who).since) && PhaseOf(s, who).since <= s.now)
      && (PhaseOf(s, who).Failed? ==>
            && Recorded(s, At(s, who), PhaseOf(s, who).calledAt)
            && PhaseOf(s, who).calledAt <= PhaseOf(s, who).failedAt <= s.now)
  }

  ghost predicate CopyIsRecorded(c: Config, s: State, at: Position) {
    Stored(s, at) && IsRetry(c, at.partition) ==>
      && Recorded(s, RecordAt(s, at).parent, RecordAt(s, at).calledAt)
      && RecordAt(s, at).calledAt <= RecordAt(s, at).failedAt
  }

  ghost predicate OnTime(c: Config, s: State) {
    && (forall i :: 0 <= i < |s.calls| ==> CallIsOnTime(c, s, s.calls[i]))
    && (forall who :: PhaseIsRecorded(s, who))
    && (forall at: Position :: CopyIsRecorded(c, s, at))
  }

  lemma StepKeepsRecorded(c: Config, s: State, step: Step, at: Position, when: int)
    requires Enabled(c, s, step) && Recorded(s, at, when)
    ensures Recorded(Take(c, s, step), at, when)
  {
    var i :| 0 <= i < |s.calls| && s.calls[i].position == at && s.calls[i].at == when;
    assert Take(c, s, step).calls[i] == s.calls[i];
  }

  lemma StepKeepsCallOnTime(c: Config, s: State, step: Step, call: Call)
    requires Enabled(c, s, step) && CallIsOnTime(c, s, call)
    ensures CallIsOnTime(c, Take(c, s, step), call)
  {
    StepGrows(c, s, step);
  }

  lemma NewCallIsOnTime(c: Config, s: State, step: Step)
    requires WellConfigured(c) && Sound(c, s) && step.CallHandler? && Enabled(c, s, step)
    ensures CallIsOnTime(c, Take(c, s, step), Take(c, s, step).calls[|s.calls|])
  {
    StepGrows(c, s, step);
    WorkKeepsPlaces(c, s, step);
    WorkersAreOnConsumedTopics(c, s, step.who);
    assert IsRetry(c, At(s, step.who).partition) ==> RetryRecord(c, s, InHand(s, step.who));
  }

  /** Only a call adds to the calls. */
  lemma CallsAfter(c: Config, s: State, step: Step)
    requires Enabled(c, s, step)
    ensures s.calls <= Take(c, s, step).calls
    ensures |Take(c, s, step).calls| == |s.calls| + if step.CallHandler? then 1 else 0
  {
    if Works(step) {
      SettingAPhaseKeepsPlaces(s, step.who, NextPhase(s, step));
    }
  }

  lemma StepKeepsCallsOnTime(c: Config, s: State, step: Step)
    requires WellConfigured(c) && Sound(c, s) && OnTime(c, s) && Enabled(c, s, step)
    ensures forall i :: 0 <= i < |Take(c, s, step).calls| ==> CallIsOnTime(c, Take(c, s, step), Take(c, s, step).calls[i])
  {
    var t := Take(c, s, step);
    CallsAfter(c, s, step);
    forall i | 0 <= i < |t.calls| ensures CallIsOnTime(c, t, t.calls[i]) {
      if i < |s.calls| {
        StepKeepsCallOnTime(c, s, step, s.calls[i]);
      } else {
        NewCallIsOnTime(c, s, step);
      }
    }
  }

  lemma StepperIsRecorded(c: Config, s: State, step: Step)
    requires Offsets(c, s) && Works(step) && Enabled(c, s, step) && PhaseIsRecorded(s, step.who)
    ensures PhaseIsRecorded(Take(c, s, step), step.who)
  {
    var t, who := Take(c, s, step), step.who;
    StepGrows(c, s, step);
    WorkKeepsPlaces(c, s, step);
    assert PhaseOf(t, who) == NextPhase(s, step) && At(t, who) == At(s, who);
    if step.CallHandler? {
      assert t.calls[|s.calls|].position == At(t, who);
    } else if step.Throw? {
      StepKeepsRecorded(c, s, step, At(s, who), PhaseOf(s, who).since);
    }
  }

  /** Time never goes back. */
  lemma TimePasses(c: Config, s: State, step: Step)
    requires Enabled(c, s, step)
    ensures s.now <= Take(c, s, step).now
  {
    if Works(step) {
      WorkKeepsPlaces(c, s, step);
    }
  }

  lemma StepKeepsPhaseRecorded(c: Config, s: State, step: Step, who: Worker)
    requires Offsets(c, s) && Enabled(c, s, step) && PhaseIsRecorded(s, WorkerBefore(step, who))
    ensures PhaseIsRecorded(Take(c, s, step), who)
  {
    var t := Take(c, s, step);
    TimePasses(c, s, step);
    if Works(step) && step.who == who {
      StepperIsRecorded(c, s, step);
    } else if Working(t, who) && !Fetches(step, who) {
      WorkerWasThere(c, s, step, who);
      WorkerWasAsFar(c, s, step, who);
      var phase := PhaseOf(t, who);
      if phase.Running? {
        StepKeepsRecorded(c, s, step, At(t, who), phase.since);
      } else if phase.Failed? {
        StepKeepsRecorded(c, s, step, At(t, who), phase.calledAt);
      }
    }
  }

  lemma StepKeepsCopyRecorded(c: Config, s: State, step: Step, at: Position)
    requires CopyIsRecorded(c, s, at) && Enabled(c, s, step)
    requires step.Republish? ==> PhaseIsRecorded(s, step.who)
    requires WellConfigured(c)
    ensures CopyIsRecorded(c, Take(c, s, step), at)
  {
    var t := Take(c, s, step);
    if Stored(t, at) && IsRetry(c, at.partition) {
      if Stored(s, at) {
        StepGrows(c, s, step);
        StepKeepsRecorded(c, s, step, RecordAt(s, at).parent, RecordAt(s, at).calledAt);
      } else {
        NewRecord(c, s, step, at);
        StepKeepsRecorded(c, s, step, At(s, step.who), PhaseOf(s, step.who).calledAt);
      }
    }
  }

  lemma {:induction false} EveryRunIsOnTime(c: Config, start: int, run: seq<Step>)
    requires WellConfigured(c) && After(c, start, run).Some?
    ensures OnTime(c, After(c, start, run).value)
  {
    if run != [] {
      var before, step := run[..|run| - 1], run[|run| - 1];
      var s := After(c, start, before).value;
      EveryRunIsOnTime(c, start, before);
      EveryRunIsSound(c, start, before);
      StepKeepsCallsOnTime(c, s, step);
      forall who ensures PhaseIsRecorded(Take(c, s, step), who) {
        assert PhaseIsRecorded(s, WorkerBefore(step, who));
        StepKeepsPhaseRecorded(c, s, step, who);
      }
      forall at: Position ensures CopyIsRecorded(c, Take(c, s, step), at) {
        assert CopyIsRecorded(c, s, at);
        if step.Republish? {
          assert PhaseIsRecorded(s, step.who);
        }
        StepKeepsCopyRecorded(c, s, step, at);
      }
    }
  }

  /**
   * In every run, the k-th retry of a message is called at least its delay after the attempt it
   * retries was called, and its not-before exceeds that by at most a fifth of the delay.
   */
  lemma RetriesRespectTheirDelay(c: Config, start: int, run: seq<Step>, i: nat)
    requires WellConfigured(c) && After(c, start, run).Some?
    requires i < |After(c, start, run).value.calls|
    ensures var s := After(c, start, run).value;
      var call := s.calls[i];
      IsRetry(c, call.position.partition) ==>
        && 1 <= call.attempt <= |RETRY_DELAYS_MS|
        && Stored(s, call.position)
        && var r := RecordAt(s, call.position);
           && (exists j :: 0 <= j < |s.calls| && s.calls[j].position == r.parent && s.calls[j].at == r.calledAt)
           && NotBefore(r.message.headers).Some?
           && r.calledAt + RETRY_DELAYS_MS[call.attempt - 1] <= NotBefore(r.message.headers).value <= call.at
           && 5 * (NotBefore(r.message.headers).value - r.calledAt) <= 6 * RETRY_DELAYS_MS[call.attempt - 1]
  {
    var s := After(c, start, run).value;
    EveryRunIsSound(c, start, run);
    EveryRunIsOnTime(c, start, run);
    var call := s.calls[i];
    assert CallIsOnTime(c, s, call);
    if IsRetry(c, call.position.partition) {
      assert RetryRecord(c, s, RecordAt(s, call.position)) && CopyIsRecorded(c, s, call.position);
    }
  }

  // ---------- counted from the failure ----------

  /**
   * Every retry at rest, in every run, is due after its delay counted from the throw exactly when the
   * attempt took no longer than the jitter its draw gave: the clock `dispatch` is given is read before
   * the handler runs.
   */
  lemma WaitAfterTheFailure(c: Config, start: int, run: seq<Step>, at: Position)
    requires WellConfigured(c) && After(c, start, run).Some?
    requires Stored(After(c, start, run).value, at) && IsRetry(c, at.partition)
    ensures var r := RecordAt(After(c, start, run).value, at);
      && 1 <= Attempt(r) <= |RETRY_DELAYS_MS| && Draw(r.draw) && NotBefore(r.message.headers).Some?
      && var delay := RETRY_DELAYS_MS[Attempt(r) - 1];
         r.failedAt + delay <= NotBefore(r.message.headers).value <==> r.failedAt - r.calledAt <= JitterOf(delay, r.draw)
  {
    EveryRunIsSound(c, start, run);
    assert RetryRecord(c, After(c, start, run).value, RecordAt(After(c, start, run).value, at));
  }

  /** The copy a failed attempt would publish with this draw is not due before its delay after the throw. */
  ghost predicate CopyWaits(s: State, who: Worker, u: real)
    requires HasFailed(s, who) && Draw(u) && Attempt(InHand(s, who)) < |RETRY_DELAYS_MS|
  {
    var notBefore := NotBefore(CopyOf(s, who, u).message.headers);
    notBefore.Some? && PhaseOf(s, who).failedAt + RETRY_DELAYS_MS[Attempt(InHand(s, who))] <= notBefore.value
  }

  lemma CopyWaitsAsRouted(s: State, who: Worker, u: real)
    requires HasFailed(s, who) && PhaseOf(s, who).error.Transient? && Draw(u)
    requires Attempt(InHand(s, who)) < |RETRY_DELAYS_MS|
    ensures var phase := PhaseOf(s, who);
      CopyWaits(s, who, u) <==>
        WaitCovers(phase.error.text, Attempt(InHand(s, who)), phase.calledAt, phase.failedAt, u)
  {
    var r, phase := InHand(s, who), PhaseOf(s, who);
    CopyKeepsTheMessage(PayloadOf(At(s, who).partition, r), phase.error, phase.calledAt, u);
  }

  /**
   * Of every attempt that failed and is to be retried, in every run: a draw's copy waits the delay
   * out exactly when the attempt took no longer than that draw's jitter; every draw's does exactly
   * when the attempt took no time, and some draw's does exactly when it took a fifth of the delay at
   * most.
   */
  lemma WhenTheDelayIsWaitedOut(c: Config, start: int, run: seq<Step>, who: Worker)
    requires WellConfigured(c) && After(c, start, run).Some?
    requires HasFailed(After(c, start, run).value, who) && PhaseOf(After(c, start, run).value, who).error.Transient?
    requires Attempt(InHand(After(c, start, run).value, who)) < |RETRY_DELAYS_MS|
    ensures var s := After(c, start, run).value;
      var took := PhaseOf(s, who).failedAt - PhaseOf(s, who).calledAt;
      var delay := RETRY_DELAYS_MS[Attempt(InHand(s, who))];
      && (forall u | Draw(u) :: CopyWaits(s, who, u) <==> took <= JitterOf(delay, u))
      && ((forall u | Draw(u) :: CopyWaits(s, who, u)) <==> took == 0)
      && ((exists u | Draw(u) :: CopyWaits(s, who, u)) <==> 5 * took <= delay)
  {
    var s := After(c, start, run).value;
    var phase, attempt := PhaseOf(s, who), Attempt(InHand(s, who));
    EveryRunIsOnTime(c, start, run);
    assert PhaseIsRecorded(s, who);
    WaitCoversExactly(phase.error.text, attempt, phase.calledAt, phase.failedAt);
    forall u | Draw(u)
      ensures CopyWaits(s, who, u) <==> WaitCovers(phase.error.text, attempt, phase.calledAt, phase.failedAt, u)
    {
      CopyWaitsAsRouted(s, who, u);
    }
    var few := exists u | Draw(u) :: CopyWaits(s, who, u);
    if few {
      var u :| Draw(u) && CopyWaits(s, who, u);
      assert WaitCovers(phase.error.text, attempt, phase.calledAt, phase.failedAt, u);
    }
  }

  /** In every run, a retry is called its delay after the throw whenever the attempt took no longer than the jitter. */
  lemma CallsWaitOutShortFailures(c: Config, start: int, run: seq<Step>, i: nat)
    requires WellConfigured(c) && After(c, start, run).Some?
    requires i < |After(c, start, run).value.calls| && IsRetry(c, After(c, start, run).value.calls[i].position.partition)
    ensures var s := After(c, start, run).value;
      var call := s.calls[i];
      && 1 <= call.attempt <= |RETRY_DELAYS_MS| && Stored(s, call.position)
      && var r, delay := RecordAt(s, call.position), RETRY_DELAYS_MS[call.attempt - 1];
         Draw(r.draw) && (r.failedAt - r.calledAt <= JitterOf(delay, r.draw) ==> r.failedAt + delay <= call.at)
  {
    var s := After(c, start, run).value;
    EveryRunIsOnTime(c, start, run);
    assert CallIsOnTime(c, s, s.calls[i]);
    WaitAfterTheFailure(c, start, run, s.calls[i].position);
  }

  /**
   * And otherwise it may not be. In this run from the start, the retry of a handler that took `took`
   * is called before its delay has passed since the throw exactly when `took` is not nought, and with
   * no wait at all once `took` is the whole delay.
   */
  lemma ARetryIsCalledEarly(c: Config, topic: string, start: int, took: nat)
    requires WellConfigured(c) && topic in c.sources && topic != "null"
    ensures var run := FailingRun(c, topic, start, took) + [CallHandler(Owner(RetryPartition(c)))];
      && After(c, start, run).Some?
      && var s, at := After(c, start, run).value, Position(RetryPartition(c), 0);
         && |s.calls| == 2 && s.calls[1].position == at && s.calls[1].attempt == 1
         && Stored(s, at) && RecordAt(s, at).calledAt == start && RecordAt(s, at).failedAt == start + took
         && (s.calls[1].at < RecordAt(s, at).failedAt + RETRY_DELAYS_MS[0] <==> took > 0)
         && (s.calls[1].at == RecordAt(s, at).failedAt <==> took >= RETRY_DELAYS_MS[0])
  {
    var first, step := FailingRun(c, topic, start, took), CallHandler(Owner(RetryPartition(c)));
    var s := TakenUp(c, topic, start, took, Waiting);
    TheCopyIsTakenUp(c, topic, start, took);
    TheCopyInHand(c, topic, start, took);
    AfterOneMore(c, start, first, step);
    LogAfter(c, s, step, RetryPartition(c));
  }

  /**
   * Of every attempt that failed and is retried, in every run: its copy is due the moment it is
   * published exactly when the delay and its jitter have passed since the attempt was dispatched, so
   * always when the handler took 1.2 times the delay.
   */
  lemma ASlowHandlerIsRetriedAtOnce(c: Config, start: int, run: seq<Step>, who: Worker, target: Partition, draw: real)
    requires WellConfigured(c) && After(c, start, run).Some?
    requires Enabled(c, After(c, start, run).value, Republish(who, target, draw))
    requires PhaseOf(After(c, start, run).value, who).error.Transient?
    requires Attempt(InHand(After(c, start, run).value, who)) < |RETRY_DELAYS_MS|
    ensures var s := After(c, start, run).value;
      var sent, at := Take(c, s, Republish(who, target, draw)), Position(target, |Log(s, target)|);
      var phase, delay := PhaseOf(s, who), RETRY_DELAYS_MS[Attempt(InHand(s, who))];
      && Stored(sent, at)
      && (Due(c, sent, target, RecordAt(sent, at)) <==> phase.calledAt + delay + JitterOf(delay, draw) <= s.now)
      && (6 * delay <= 5 * (phase.failedAt - phase.calledAt) ==> Due(c, sent, target, RecordAt(sent, at)))
  {
    var s, step := After(c, start, run).value, Republish(who, target, draw);
    var r, phase := InHand(s, who), PhaseOf(s, who);
    EveryRunIsOnTime(c, start, run);
    assert PhaseIsRecorded(s, who);
    LogAfter(c, s, step, target);
    WorkKeepsPlaces(c, s, step);
    CopyKeepsTheMessage(PayloadOf(At(s, who).partition, r), phase.error, phase.calledAt, draw);
  }

  // ---------- how many attempts there are ----------

  /** A transient failure becomes the next attempt until the delays run out, then a dead letter that says so. */
  lemma AFailureIsRetriedOrExhausted(c: Config, s: State, who: Worker, target: Partition, draw: real)
    requires WellConfigured(c) && Sound(c, s) && Enabled(c, s, Republish(who, target, draw))
    ensures var t := Take(c, s, Republish(who, target, draw));
      var error, attempt := PhaseOf(s, who).error, Attempt(InHand(s, who));
      var retried := error.Transient? && attempt < |RETRY_DELAYS_MS|;
      && attempt <= |RETRY_DELAYS_MS|
      && (retried ==>
            && t.deadLetters == s.deadLetters && |Log(t, target)| == |Log(s, target)| + 1
            && Attempt(Log(t, target)[|Log(s, target)|]) == attempt + 1)
      && (!retried ==>
            && t.logs == s.logs && |t.deadLetters| == |s.deadLetters| + 1
            && var letter := t.deadLetters[|s.deadLetters|];
               && Attempt(letter) == attempt
               && Raw(letter.message.headers, DLQ_REASON_HEADER) ==
                    Text(if error.Permanent? then "permanent" else "exhausted"))
  {
    var r, phase := InHand(s, who), PhaseOf(s, who);
    AttemptIsBounded(c, s, At(s, who));
    CopyKeepsTheMessage(PayloadOf(At(s, who).partition, r), phase.error, phase.calledAt, draw);
  }

  /** A crash, a shutdown, an unacknowledged republication or a rebalance: the record may be delivered again. */
  predicate Interrupts(step: Step) { step.Interrupt? || step.Reassign? }

  ghost predicate Uninterrupted(run: seq<Step>) {
    forall i :: 0 <= i < |run| ==> !Interrupts(run[i])
  }

  /** The record was copied, or is past: nothing copies it again. */
  ghost predicate CopiedOrPast(s: State, at: Position) {
    || at.offset < Resolved(s, at.partition)
    || (at.partition in s.flights && s.flights[at.partition] == Flight(at.offset, Sent))
  }

  /** The record's handler has been called. */
  ghost predicate CalledOrPast(s: State, at: Position) {
    || at.offset < Resolved(s, at.partition)
    || (at.partition in s.flights && s.flights[at.partition].offset == at.offset &&
        !s.flights[at.partition].phase.Waiting?)
  }

  /** No two records are the same attempt at the same message. */
  ghost predicate DistinctAttempts(s: State, a: Position, b: Position) {
    (&& Stored(s, a) && Stored(s, b)
     && RecordAt(s, a).source == RecordAt(s, b).source
     && Attempt(RecordAt(s, a)) == Attempt(RecordAt(s, b))) ==> a == b
  }

  ghost predicate Straight(c: Config, s: State) {
    && s.strays == map[]
    && (forall a: Position, b: Position :: DistinctAttempts(s, a, b))
    && (forall at: Position :: Stored(s, at) && IsRetry(c, at.partition) ==> CopiedOrPast(s, RecordAt(s, at).parent))
    && (forall i :: 0 <= i < |s.calls| ==> CalledOrPast(s, s.calls[i].position))
    && (forall i, j :: 0 <= i < j < |s.calls| ==> s.calls[i].position != s.calls[j].position)
  }

  lemma AttemptIsBounded(c: Config, s: State, at: Position)
    requires WellConfigured(c) && Sound(c, s) && Stored(s, at)
    ensures IsConsumed(c, at.partition)
    ensures Attempt(RecordAt(s, at)) <= |RETRY_DELAYS_MS|
    ensures IsSource(c, at.partition) ==> Attempt(RecordAt(s, at)) == 0 && RecordAt(s, at).source == at
    ensures IsRetry(c, at.partition) ==> RetryRecord(c, s, RecordAt(s, at))
  {
    assert OffsetsOf(c, s, at.partition);
    if IsSource(c, at.partition) {
      assert SourceRecord(at, RecordAt(s, at));
      UnmarkedHasNoAttempt(RecordAt(s, at).message);
    }
  }

  /** A step without interruption keeps what is past, and what was copied. */
  lemma StepKeepsCopied(c: Config, s: State, step: Step, at: Position)
    requires OffsetsOf(c, s, at.partition) && Enabled(c, s, step) && !Interrupts(step) && CopiedOrPast(s, at)
    ensures CopiedOrPast(Take(c, s, step), at)
  {
    if Works(step) {
      WorkKeepsPlaces(c, s, step);
    }
  }

  lemma StepKeepsCalled(c: Config, s: State, step: Step, at: Position)
    requires OffsetsOf(c, s, at.partition) && Enabled(c, s, step) && !Interrupts(step) && CalledOrPast(s, at)
    ensures CalledOrPast(Take(c, s, step), at)
  {
    if Works(step) {
      WorkKeepsPlaces(c, s, step);
    }
  }

  /** The copy of a record not copied yet is the only record at its attempt. */
  lemma CopyIsDistinct(c: Config, s: State, who: Worker, draw: real, earlier: Position)
    requires WellConfigured(c) && Sound(c, s) && Straight(c, s) && HasFailed(s, who) && Draw(draw)
    requires Stored(s, earlier) && RouteOf(InHand(s, who), PhaseOf(s, who), draw).Retry?
    ensures CopyOf(s, who, draw).source == RecordAt(s, earlier).source ==>
              Attempt(CopyOf(s, who, draw)) != Attempt(RecordAt(s, earlier))
  {
    var at, r, phase := At(s, who), InHand(s, who), PhaseOf(s, who);
    AttemptIsBounded(c, s, earlier);
    CopyKeepsTheMessage(PayloadOf(at.partition, r), phase.error, phase.calledAt, draw);
    if IsRetry(c, earlier.partition) {
      var parent := RecordAt(s, earlier).parent;
      assert OffsetsOf(c, s, at.partition);
      assert CopiedOrPast(s, parent) && !CopiedOrPast(s, at);
      assert DistinctAttempts(s, parent, at);
    }
  }

  /** So the record a step adds is the only one at its attempt. */
  lemma NewCopyIsDistinct(c: Config, s: State, step: Step, earlier: Position, added: Position)
    requires WellConfigured(c) && Sound(c, s) && Straight(c, s) && Enabled(c, s, step) && !Interrupts(step)
    requires Stored(s, earlier) && Stored(Take(c, s, step), added) && !Stored(s, added)
    ensures RecordAt(Take(c, s, step), added).source == RecordAt(s, earlier).source ==>
              Attempt(RecordAt(Take(c, s, step), added)) != Attempt(RecordAt(s, earlier))
  {
    NewRecord(c, s, step, added);
    if step.Republish? {
      CopyIsDistinct(c, s, step.who, step.draw, earlier);
    } else {
      AttemptIsBounded(c, s, earlier);
    }
  }

  lemma StepKeepsDistinctAttempts(c: Config, s: State, step: Step, a: Position, b: Position)
    requires WellConfigured(c) && Sound(c, s) && Straight(c, s) && Enabled(c, s, step) && !Interrupts(step)
    ensures DistinctAttempts(Take(c, s, step), a, b)
  {
    var t := Take(c, s, step);
    if Stored(t, a) && Stored(t, b) {
      StepGrows(c, s, step);
      if Stored(s, a) && Stored(s, b) {
        assert DistinctAttempts(s, a, b);
      } else if Stored(s, a) {
        NewCopyIsDistinct(c, s, step, a, b);
      } else if Stored(s, b) {
        NewCopyIsDistinct(c, s, step, b, a);
      } else {
        NewRecord(c, s, step, a);
        NewRecord(c, s, step, b);
      }
    }
  }

  lemma StepKeepsParentsCopied(c: Config, s: State, step: Step, at: Position)
    requires WellConfigured(c) && Sound(c, s) && Straight(c, s) && Enabled(c, s, step) && !Interrupts(step)
    requires Stored(Take(c, s, step), at) && IsRetry(c, at.partition)
    ensures CopiedOrPast(Take(c, s, step), RecordAt(Take(c, s, step), at).parent)
  {
    if Stored(s, at) {
      StepGrows(c, s, step);
      assert OffsetsOf(c, s, RecordAt(s, at).parent.partition);
      StepKeepsCopied(c, s, step, RecordAt(s, at).parent);
    } else {
      NewRecord(c, s, step, at);
    }
  }

  lemma StepKeepsCallsDistinct(c: Config, s: State, step: Step)
    requires Sound(c, s) && Straight(c, s) && Enabled(c, s, step) && !Interrupts(step)
    ensures var t := Take(c, s, step);
      && (forall i :: 0 <= i < |t.calls| ==> CalledOrPast(t, t.calls[i].position))
      && (forall i, j :: 0 <= i < j < |t.calls| ==> t.calls[i].position != t.calls[j].position)
  {
    var t := Take(c, s, step);
    forall i | 0 <= i < |t.calls| ensures CalledOrPast(t, t.calls[i].position) {
      if i < |s.calls| {
        assert OffsetsOf(c, s, s.calls[i].position.partition);
        StepKeepsCalled(c, s, step, s.calls[i].position);
      }
    }
    if step.CallHandler? {
      assert OffsetsOf(c, s, step.who.partition);
      assert !CalledOrPast(s, At(s, step.who));
    }
  }

  lemma {:induction false} UninterruptedRunsAreStraight(c: Config, start: int, run: seq<Step>)
    requires WellConfigured(c) && After(c, start, run).Some? && Uninterrupted(run)
    ensures Straight(c, After(c, start, run).value)
  {
    if run != [] {
      var before, step := run[..|run| - 1], run[|run| - 1];
      var s, t := After(c, start, before).value, After(c, start, run).value;
      UninterruptedRunsAreStraight(c, start, before);
      EveryRunIsSound(c, start, before);
      forall a: Position, b: Position ensures DistinctAttempts(t, a, b) {
        StepKeepsDistinctAttempts(c, s, step, a, b);
      }
      forall at: Position | Stored(t, at) && IsRetry(c, at.partition) ensures CopiedOrPast(t, RecordAt(t, at).parent) {
        StepKeepsParentsCopied(c, s, step, at);
      }
      StepKeepsCallsDistinct(c, s, step);
    }
  }

  /** The attempts made at one source message, and how often its handler was called. */
  function AttemptsAt(calls: seq<Call>, source: Position): set<nat> {
    set i | 0 <= i < |calls| && calls[i].source == source :: calls[i].attempt
  }

  function CallsFor(calls: seq<Call>, source: Position): nat {
    if calls == [] then 0
    else
      var last := |calls| - 1;
      CallsFor(calls[..last], source) + (if calls[last].source == source then 1 else 0)
  }

  lemma AttemptsAtOneMore(calls: seq<Call>, source: Position)
    requires calls != []
    ensures var last := calls[|calls| - 1];
      AttemptsAt(calls, source) ==
        AttemptsAt(calls[..|calls| - 1], source) + (if last.source == source then {last.attempt} else {})
  {
    var n := |calls| - 1;
    forall a | a in AttemptsAt(calls[..n], source) ensures a in AttemptsAt(calls, source) {
      var i :| 0 <= i < n && calls[..n][i].source == source && calls[..n][i].attempt == a;
      assert calls[i].source == source && calls[i].attempt == a;
    }
  }

  lemma {:induction false} DistinctCallsAreCounted(calls: seq<Call>, source: Position)
    requires forall i, j :: 0 <= i < j < |calls| && calls[i].source == calls[j].source == source ==>
               calls[i].attempt != calls[j].attempt
    ensures CallsFor(calls, source) == |AttemptsAt(calls, source)|
  {
    if calls != [] {
      DistinctCallsAreCounted(calls[..|calls| - 1], source);
      AttemptsAtOneMore(calls, source);
    }
  }

  lemma {:induction false} BoundedSetIsSmall(attempts: set<nat>, bound: nat)
    requires forall a :: a in attempts ==> a < bound
    ensures |attempts| <= bound
  {
    if bound > 0 {
      BoundedSetIsSmall(attempts - {bound - 1}, bound - 1);
    } else {
      assert attempts == {};
    }
  }

  /**
   * Without interruptions, one message's handler is called at most `attemptsAllowedBy` times, its
   * attempts all different and numbered from nought.
   */
  lemma HandlerCallsAreBounded(c: Config, start: int, run: seq<Step>, source: Position)
    requires WellConfigured(c) && After(c, start, run).Some? && Uninterrupted(run)
    ensures CallsFor(After(c, start, run).value.calls, source) <= AttemptsAllowedBy(RETRY_DELAYS_MS)
  {
    var s := After(c, start, run).value;
    EveryRunIsSound(c, start, run);
    EveryRunIsOnTime(c, start, run);
    UninterruptedRunsAreStraight(c, start, run);
    forall i, j | 0 <= i < j < |s.calls| && s.calls[i].source == s.calls[j].source == source
      ensures s.calls[i].attempt != s.calls[j].attempt
    {
      assert CallIsOnTime(c, s, s.calls[i]) && CallIsOnTime(c, s, s.calls[j]);
      assert DistinctAttempts(s, s.calls[i].position, s.calls[j].position);
    }
    DistinctCallsAreCounted(s.calls, source);
    forall a | a in AttemptsAt(s.calls, source) ensures a < AttemptsAllowedBy(RETRY_DELAYS_MS) {
      var i :| 0 <= i < |s.calls| && s.calls[i].source == source && s.calls[i].attempt == a;
      assert CallIsOnTime(c, s, s.calls[i]);
      AttemptIsBounded(c, s, s.calls[i].position);
    }
    BoundedSetIsSmall(AttemptsAt(s.calls, source), AttemptsAllowedBy(RETRY_DELAYS_MS));
  }
}
