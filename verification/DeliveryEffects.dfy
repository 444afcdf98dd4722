/** One message id's effect is applied at most once, whatever is redelivered, retried or republished. */
module DeliveryEffects {
  import opened Options
  import opened Dispatch
  import opened Delivery

  ghost predicate AppliedOnce(s: State) {
    forall i, j :: 0 <= i < j < |s.effects| ==> s.effects[i] != s.effects[j]
  }

  /** An applied id is in the ledger, or was purged from it. */
  ghost predicate Remembered(s: State) {
    forall id :: id in s.effects ==> id in s.ledger || id in s.retired
  }

  /** A purged id is on no record a consumer may still take, and in no detached delivery. */
  ghost predicate RetiredForGood(c: Config, s: State) {
    forall id :: id in s.retired ==> !AtLarge(c, s, id)
  }

  ghost predicate EffectsAreUnique(c: Config, s: State) {
    AppliedOnce(s) && Remembered(s) && RetiredForGood(c, s)
  }

  /** The id of a message being delivered is at large: its offset is not committed, or its worker is a stray. */
  lemma InHandIsAtLarge(c: Config, s: State, who: Worker)
    requires Offsets(c, s) && Working(s, who)
    ensures MessageId(InHand(s, who).message).Some? ==> AtLarge(c, s, MessageId(InHand(s, who).message).value)
  {
    if who.Owner? {
      assert OffsetsOf(c, s, who.partition);
      assert Deliverable(s, At(s, who));
    }
  }

  lemma CopyKeepsTheId(s: State, who: Worker, draw: real)
    requires HasFailed(s, who) && Failure.Draw(draw)
    ensures MessageId(CopyOf(s, who, draw).message) == MessageId(InHand(s, who).message)
  {
    var r, phase := InHand(s, who), PhaseOf(s, who);
    CopyKeepsForeignHeaders(PayloadOf(At(s, who).partition, r), phase.error, RouteOf(r, phase, draw));
  }

  /** What a consumer may take after a step it could take before, or the step added it. */
  lemma DeliverableWas(c: Config, s: State, step: Step, at: Position)
    requires Offsets(c, s) && Enabled(c, s, step) && Deliverable(Take(c, s, step), at) && Stored(s, at)
    ensures Deliverable(s, at) && RecordAt(Take(c, s, step), at) == RecordAt(s, at)
  {
    StepGrows(c, s, step);
    if Works(step) {
      WorkKeepsPlaces(c, s, step);
    }
  }

  /** The step does not put a new message with this id on a source. */
  ghost predicate ProducesAnother(step: Step, id: string) {
    step.Produce? ==> MessageId(step.message) != Some(id)
  }

  lemma NoRecordComesBack(c: Config, s: State, step: Step, id: string, at: Position)
    requires Offsets(c, s) && Enabled(c, s, step) && !AtLarge(c, s, id) && ProducesAnother(step, id)
    requires IsConsumed(c, at.partition) && Deliverable(Take(c, s, step), at)
    ensures MessageId(RecordAt(Take(c, s, step), at).message) != Some(id)
  {
    if Stored(s, at) {
      DeliverableWas(c, s, step, at);
    } else {
      LogAfter(c, s, step, at.partition);
      if step.Republish? {
        InHandIsAtLarge(c, s, step.who);
        CopyKeepsTheId(s, step.who, step.draw);
      }
    }
  }

  /** What is at large nowhere stays so, unless it is produced anew. */
  lemma NothingComesBack(c: Config, s: State, step: Step, id: string)
    requires Offsets(c, s) && Enabled(c, s, step) && !AtLarge(c, s, id) && ProducesAnother(step, id)
    ensures !AtLarge(c, Take(c, s, step), id)
  {
    var t := Take(c, s, step);
    forall at: Position | IsConsumed(c, at.partition) && Deliverable(t, at)
      ensures MessageId(RecordAt(t, at).message) != Some(id)
    {
      NoRecordComesBack(c, s, step, id, at);
    }
    forall n | Working(t, Stray(n)) ensures MessageId(InHand(t, Stray(n)).message) != Some(id) {
      WorkerWasThere(c, s, step, Stray(n));
      InHandIsAtLarge(c, s, WorkerBefore(step, Stray(n)));
    }
  }

  lemma StepKeepsRetired(c: Config, s: State, step: Step, id: string)
    requires Offsets(c, s) && RetiredForGood(c, s) && Enabled(c, s, step)
    requires id in Take(c, s, step).retired
    ensures !AtLarge(c, Take(c, s, step), id)
  {
    if Works(step) {
      WorkKeepsPlaces(c, s, step);
    }
    assert id in s.retired || step == PurgeLedger(id);
    NothingComesBack(c, s, step, id);
  }

  /** Only an answer claims or applies, and only a purge forgets. */
  lemma ClaimsAfter(c: Config, s: State, step: Step)
    requires Enabled(c, s, step) && !step.Answer?
    ensures Take(c, s, step).effects == s.effects
    ensures forall id :: id in s.ledger || id in s.retired ==> id in Take(c, s, step).ledger || id in Take(c, s, step).retired
  {
    if Works(step) {
      SettingAPhaseKeepsPlaces(s, step.who, NextPhase(s, step));
    }
  }

  lemma StepRemembers(c: Config, s: State, step: Step)
    requires Offsets(c, s) && EffectsAreUnique(c, s) && Enabled(c, s, step)
    ensures AppliedOnce(Take(c, s, step)) && Remembered(Take(c, s, step))
  {
    if step.Answer? {
      InHandIsAtLarge(c, s, step.who);
    } else {
      ClaimsAfter(c, s, step);
    }
  }

  lemma StepKeepsEffectsUnique(c: Config, s: State, step: Step)
    requires Offsets(c, s) && EffectsAreUnique(c, s) && Enabled(c, s, step)
    ensures EffectsAreUnique(c, Take(c, s, step))
  {
    StepRemembers(c, s, step);
    forall id | id in Take(c, s, step).retired ensures !AtLarge(c, Take(c, s, step), id) {
      StepKeepsRetired(c, s, step, id);
    }
  }

  /**
   * In every run where a ledger row is purged only once no copy of its message can be delivered and no
   * detached delivery is at one, no message id's effect is applied twice.
   */
  lemma {:induction false} NoEffectIsAppliedTwice(c: Config, start: int, run: seq<Step>)
    requires WellConfigured(c) && After(c, start, run).Some?
    ensures AppliedOnce(After(c, start, run).value)
    ensures EffectsAreUnique(c, After(c, start, run).value)
  {
    if run != [] {
      var before := run[..|run| - 1];
      NoEffectIsAppliedTwice(c, start, before);
      EveryRunIsSound(c, start, before);
      StepKeepsEffectsUnique(c, After(c, start, before).value, run[|run| - 1]);
    }
  }

  /**
   * The proviso is needed, detached deliveries included: once the row of an applied message is gone
   * while any worker is about to handle a copy of it, its call may apply the effect again.
   */
  lemma AnEarlyPurgeRepeatsTheEffect(c: Config, s: State, who: Worker, id: string)
    requires MayStart(c, s, who, true)
    requires MessageId(InHand(s, who).message) == Some(id) && id in s.effects
    ensures var purged := s.(ledger := s.ledger - {id});
      && Enabled(c, purged, CallHandler(who))
      && Enabled(c, Take(c, purged, CallHandler(who)), Answer(who, Applied, true))
      && !AppliedOnce(Take(c, Take(c, purged, CallHandler(who)), Answer(who, Applied, true)))
  {
    var purged := s.(ledger := s.ledger - {id});
    var called := Take(c, purged, CallHandler(who));
    assert InHand(called, who) == InHand(s, who);
    var applied := Take(c, called, Answer(who, Applied, true));
    var i :| 0 <= i < |s.effects| && s.effects[i] == id;
    assert applied.effects[i] == applied.effects[|s.effects|];
  }
}
