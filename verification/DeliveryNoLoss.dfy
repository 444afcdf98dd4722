/** No message is lost, in any run of the delivery protocol, exactly when no source topic is named `null`. */
module DeliveryNoLoss {
  import opened Options
  import opened Failure
  import opened Dispatch
  import opened Delivery
  import opened DeliveryRuns

  ghost predicate DeadLettered(s: State, source: Position) {
    exists i :: 0 <= i < |s.deadLetters| && s.deadLetters[i].source == source
  }

  /** A later copy of the source that the retry consumer has still to resolve. */
  ghost predicate Covers(c: Config, s: State, source: Position, attempt: nat, at: Position) {
    && IsRetry(c, at.partition) && Pending(s, at)
    && RecordAt(s, at).source == source && attempt < Attempt(RecordAt(s, at))
  }

  /** The source survives the resolution of its copy number `attempt`. */
  ghost predicate Survives(c: Config, s: State, source: Position, attempt: nat) {
    || source in s.answered
    || DeadLettered(s, source)
    || exists at :: Covers(c, s, source, attempt, at)
  }

  /** The record's delivery is over, or its offset has been resolved. */
  ghost predicate Done(s: State, at: Position) {
    || at.offset < Resolved(s, at.partition)
    || (at.partition in s.flights && s.flights[at.partition].offset == at.offset &&
        (s.flights[at.partition].phase.Settled? || s.flights[at.partition].phase.Sent?))
  }

  ghost predicate RecordSurvives(c: Config, s: State, at: Position) {
    Stored(s, at) && IsConsumed(c, at.partition) && Done(s, at) ==>
      Survives(c, s, RecordAt(s, at).source, Attempt(RecordAt(s, at)))
  }

  ghost predicate NothingLost(c: Config, s: State) {
    && (forall at: Position :: RecordSurvives(c, s, at))
    && (forall p :: p in s.flights ==> !s.flights[p].phase.Unhandled?)
  }

  lemma EveryRecordHasItsHandler(c: Config, s: State, who: Worker)
    requires WellConfigured(c) && Sound(c, s) && "null" !in c.sources && Working(s, who)
    ensures HasHandler(c, At(s, who).partition, InHand(s, who))
  {
    var r := InHand(s, who);
    WorkersAreOnConsumedTopics(c, s, who);
    if IsSource(c, At(s, who).partition) {
      UnmarkedHasNoAttempt(r.message);
    } else {
      assert RetryRecord(c, s, r);
    }
  }

  /** A record stays pending until the return of its own delivery. */
  lemma StepKeepsPending(c: Config, s: State, step: Step, at: Position)
    requires Offsets(c, s) && Enabled(c, s, step) && Pending(s, at)
    requires !(step.Return? && FlightPosition(s, step.partition) == at)
    ensures Pending(Take(c, s, step), at) && RecordAt(Take(c, s, step), at) == RecordAt(s, at)
  {
    assert OffsetsOf(c, s, at.partition);
    StepGrows(c, s, step);
  }

  lemma StepKeepsDeadLetters(c: Config, s: State, step: Step, source: Position)
    requires Enabled(c, s, step) && DeadLettered(s, source)
    ensures DeadLettered(Take(c, s, step), source)
  {
    var i :| 0 <= i < |s.deadLetters| && s.deadLetters[i].source == source;
    assert Take(c, s, step).deadLetters[i].source == source;
  }

  /** The record whose delivery returns is survived by an answer, a dead letter or a later copy. */
  lemma LaterCopy(c: Config, s: State, p: Partition, at: Position) returns (later: Position)
    requires Offsets(c, s) && NothingLost(c, s) && HasEnded(s, p) && at == FlightPosition(s, p)
    requires RecordAt(s, at).source !in s.answered && !DeadLettered(s, RecordAt(s, at).source)
    ensures Covers(c, s, RecordAt(s, at).source, Attempt(RecordAt(s, at)), later)
  {
    assert OffsetsOf(c, s, p) && RecordSurvives(c, s, at) && Done(s, at);
    later :| Covers(c, s, RecordAt(s, at).source, Attempt(RecordAt(s, at)), later);
  }

  /** What survives goes on surviving: a copy leaves the retry topic only for a later one, or for good. */
  lemma StepKeepsSurvival(c: Config, s: State, step: Step, source: Position, attempt: nat)
    requires Offsets(c, s) && NothingLost(c, s) && Enabled(c, s, step)
    requires Survives(c, s, source, attempt)
    ensures Survives(c, Take(c, s, step), source, attempt)
  {
    var t := Take(c, s, step);
    if source in s.answered {
      assert source in t.answered;
    } else if DeadLettered(s, source) {
      StepKeepsDeadLetters(c, s, step, source);
    } else {
      var at :| Covers(c, s, source, attempt, at);
      if step.Return? && FlightPosition(s, step.partition) == at {
        at := LaterCopy(c, s, step.partition, at);
      }
      StepKeepsPending(c, s, step, at);
      assert Covers(c, t, source, attempt, at);
    }
  }

  /** However a delivery ends, its partition its own or not, it leaves the message answered, dead-lettered or copied. */
  lemma EndedDeliverySurvives(c: Config, s: State, step: Step)
    requires WellConfigured(c) && Sound(c, s) && Enabled(c, s, step) && (step.Answer? || step.Republish?)
    ensures var r := InHand(s, step.who);
      Survives(c, Take(c, s, step), r.source, Attempt(r))
  {
    if step.Republish? {
      RepublishedSurvives(c, s, step);
    }
  }

  lemma RepublishedSurvives(c: Config, s: State, step: Step)
    requires WellConfigured(c) && Sound(c, s) && Enabled(c, s, step) && step.Republish?
    ensures var r := InHand(s, step.who);
      Survives(c, Take(c, s, step), r.source, Attempt(r))
  {
    var t, who := Take(c, s, step), step.who;
    var r, phase, copy := InHand(s, who), PhaseOf(s, who), CopyOf(s, who, step.draw);
    CopyKeepsTheMessage(PayloadOf(At(s, who).partition, r), phase.error, phase.calledAt, step.draw);
    WorkKeepsPlaces(c, s, step);
    if RouteOf(r, phase, step.draw).Retry? {
      LogAfter(c, s, step, step.target);
      assert OffsetsOf(c, s, step.target);
      assert Covers(c, t, r.source, Attempt(r), Position(step.target, |Log(s, step.target)|));
    } else {
      assert t.deadLetters[|s.deadLetters|].source == r.source;
    }
  }

  /** A stored record's delivery becomes done by the answer or the republication of its partition's owner. */
  lemma BecomingDone(c: Config, s: State, step: Step, at: Position)
    requires WellConfigured(c) && OffsetsOf(c, s, at.partition) && NothingLost(c, s) && Enabled(c, s, step)
    requires Stored(s, at) && Done(Take(c, s, step), at) && !Done(s, at)
    ensures (step.Answer? || step.Republish?) && step.who == Owner(at.partition) && At(s, step.who) == at
  {
    if Works(step) {
      WorkKeepsPlaces(c, s, step);
    }
  }

  /** A record is not done the moment it is added. */
  lemma DoneWasStored(c: Config, s: State, step: Step, at: Position)
    requires WellConfigured(c) && Offsets(c, s) && Enabled(c, s, step)
    requires Stored(Take(c, s, step), at) && Done(Take(c, s, step), at)
    ensures Stored(s, at)
  {
    assert OffsetsOf(c, s, at.partition);
    if !Stored(s, at) {
      NewRecord(c, s, step, at);
      if Works(step) {
        WorkKeepsPlaces(c, s, step);
      }
    }
  }

  lemma StepKeepsRecordSurviving(c: Config, s: State, step: Step, at: Position)
    requires WellConfigured(c) && "null" !in c.sources
    requires Sound(c, s) && NothingLost(c, s) && Enabled(c, s, step)
    ensures RecordSurvives(c, Take(c, s, step), at)
  {
    var t := Take(c, s, step);
    if Stored(t, at) && IsConsumed(c, at.partition) && Done(t, at) {
      DoneWasStored(c, s, step, at);
      StepGrows(c, s, step);
      if Done(s, at) {
        assert RecordSurvives(c, s, at);
        StepKeepsSurvival(c, s, step, RecordAt(s, at).source, Attempt(RecordAt(s, at)));
      } else {
        assert OffsetsOf(c, s, at.partition);
        BecomingDone(c, s, step, at);
        EndedDeliverySurvives(c, s, step);
      }
    }
  }

  lemma StepLosesNothing(c: Config, s: State, step: Step)
    requires WellConfigured(c) && "null" !in c.sources
    requires Sound(c, s) && NothingLost(c, s) && Enabled(c, s, step)
    ensures NothingLost(c, Take(c, s, step))
  {
    if step.FindNoHandler? {
      EveryRecordHasItsHandler(c, s, step.who);
    }
    forall at: Position ensures RecordSurvives(c, Take(c, s, step), at) {
      StepKeepsRecordSurviving(c, s, step, at);
    }
  }

  lemma {:induction false} EveryRunLosesNothing(c: Config, start: int, run: seq<Step>)
    requires WellConfigured(c) && "null" !in c.sources && After(c, start, run).Some?
    ensures NothingLost(c, After(c, start, run).value)
  {
    if run != [] {
      var before := run[..|run| - 1];
      EveryRunLosesNothing(c, start, before);
      EveryRunIsSound(c, start, before);
      StepLosesNothing(c, After(c, start, before).value, run[|run| - 1]);
    }
  }

  // ---------- the statement ----------

  /**
   * Where a source message may be: not committed on its source, not committed on the retry topic,
   * on the dead-letter topic, or answered normally by its handler.
   */
  ghost predicate Accounted(c: Config, s: State, at: Position) {
    || Committed(s, at.partition) <= at.offset
    || at in s.answered
    || DeadLettered(s, at)
    || exists copy: Position ::
         IsRetry(c, copy.partition) && Deliverable(s, copy) && RecordAt(s, copy).source == at
  }

  ghost predicate NoMessageLost(c: Config, start: int, run: seq<Step>) {
    After(c, start, run).Some? ==>
      forall at: Position :: IsSource(c, at.partition) && Stored(After(c, start, run).value, at) ==>
        Accounted(c, After(c, start, run).value, at)
  }

  lemma NoMessageIsEverLost(c: Config, start: int, run: seq<Step>)
    requires WellConfigured(c) && "null" !in c.sources
    ensures NoMessageLost(c, start, run)
  {
    if After(c, start, run).Some? {
      var s := After(c, start, run).value;
      EveryRunLosesNothing(c, start, run);
      EveryRunIsSound(c, start, run);
      forall at: Position | IsSource(c, at.partition) && Stored(s, at) ensures Accounted(c, s, at) {
        if at.offset < Committed(s, at.partition) && at !in s.answered && !DeadLettered(s, at) {
          assert OffsetsOf(c, s, at.partition) && RecordSurvives(c, s, at);
          var copy :| Covers(c, s, at, Attempt(RecordAt(s, at)), copy);
          assert OffsetsOf(c, s, copy.partition) && Deliverable(s, copy);
        }
      }
    }
  }

  // ---------- a source topic named `null` ----------

  /**
   * The topic's name, four characters that stand for an absent value, is read back from the origin
   * header as no origin at all: the copy finds no handler, and its offset commits.
   */
  function LosingRun(c: Config, start: int): seq<Step> {
    var q := RetryPartition(c);
    FailingRun(c, "null", start, 0) + [FindNoHandler(Owner(q)), Return(q), CommitOffset(q, 1)]
  }

  lemma TheCopyIsIgnored(c: Config, start: int)
    requires WellConfigured(c) && "null" in c.sources
    ensures After(c, start, LosingRun(c, start)[..11]) == Some(TakenUp(c, "null", start, 0, Unhandled))
  {
    var run := LosingRun(c, start);
    TheCopyIsTakenUp(c, "null", start, 0);
    TheCopyInHand(c, "null", start, 0);
    assert run[..10] == FailingRun(c, "null", start, 0);
    var s := Advance(c, start, run, 10, TakenUp(c, "null", start, 0, Waiting));
    assert s.flights == TakenUp(c, "null", start, 0, Unhandled).flights;
  }

  /** The last state: both offsets committed, nothing answered, nothing dead-lettered. */
  function Lost(c: Config, start: int): State {
    var p, q := SourcePartition("null"), RetryPartition(c);
    TakenUp(c, "null", start, 0, Unhandled).(
      flights := map[], resolved := map[p := 1, q := 1], committed := map[p := 1, q := 1])
  }

  lemma TheCopyIsPassed(c: Config, start: int)
    requires WellConfigured(c) && "null" in c.sources
    ensures After(c, start, LosingRun(c, start)) == Some(Lost(c, start))
  {
    var q, run := RetryPartition(c), LosingRun(c, start);
    TheCopyIsIgnored(c, start);
    var s11 := TakenUp(c, "null", start, 0, Unhandled);
    assert Log(s11, q) == [CopyRecord("null", start, 0)];
    var s12 := Advance(c, start, run, 11, s11);
    assert s12 == Lost(c, start).(committed := map[SourcePartition("null") := 1]);
    var s13 := Advance(c, start, run, 12, s12);
    assert run[..13] == run;
  }

  /** With a source topic named `null` there is a run after which a message is nowhere. */
  lemma ANullTopicLosesAMessage(c: Config, start: int)
    requires WellConfigured(c) && "null" in c.sources
    ensures !NoMessageLost(c, start, LosingRun(c, start))
  {
    var p, s := SourcePartition("null"), Lost(c, start);
    TheCopyIsPassed(c, start);
    assert Stored(s, Position(p, 0)) && IsSource(c, p);
    assert !Accounted(c, s, Position(p, 0));
  }

  /** The condition is exact: a caller checks it on the list of topics it subscribes to. */
  lemma NoLossExactlyWithoutANullTopic(c: Config, start: int)
    requires WellConfigured(c)
    ensures "null" !in c.sources <==> forall run :: NoMessageLost(c, start, run)
  {
    if "null" in c.sources {
      ANullTopicLosesAMessage(c, start);
    } else {
      forall run ensures NoMessageLost(c, start, run) {
        NoMessageIsEverLost(c, start, run);
      }
    }
  }
}
