/** No record is stuck: from any reachable state the next one of any partition can be handled and committed. */
module DeliveryProgress {
  import opened Options
  import opened Failure
  import opened Dispatch
  import opened Delivery
  import opened DeliveryRuns
  import opened DeliveryNoLoss

  /** When the next record of a partition may be handled: now, or at its not-before. */
  function DueAt(s: State, r: Record): int {
    match NotBefore(r.message.headers)
    case Some(at) => if s.now <= at then at else s.now
    case None => s.now
  }

  /** The partition's next record, with nobody at it. */
  ghost predicate Next(c: Config, s: State, p: Partition) {
    IsConsumed(c, p) && p !in s.flights && Resolved(s, p) < |Log(s, p)|
  }

  function NextRecord(s: State, p: Partition): Record
    requires Resolved(s, p) < |Log(s, p)|
  {
    Log(s, p)[Resolved(s, p)]
  }

  /** The record fetched, once due. */
  lemma ItIsFetched(c: Config, s: State, p: Partition) returns (t: State)
    requires Next(c, s, p)
    ensures var later := s.(now := DueAt(s, NextRecord(s, p)));
      && Enabled(c, s, Tick(later.now)) && Take(c, s, Tick(later.now)) == later
      && Enabled(c, later, Fetch(p)) && t == Take(c, later, Fetch(p))
    ensures t.logs == s.logs && t.resolved == s.resolved && t.committed == s.committed
    ensures Working(t, Owner(p)) && PhaseOf(t, Owner(p)).Waiting? && InHand(t, Owner(p)) == NextRecord(s, p)
    ensures Due(c, t, p, NextRecord(s, p)) && s.flights.Keys <= t.flights.Keys
  {
    t := Take(c, s.(now := DueAt(s, NextRecord(s, p))), Fetch(p));
  }

  /** Its handler called and answering, its offset resolved and committed. */
  lemma ItIsAnswered(c: Config, s: State, p: Partition) returns (t: State)
    requires WellConfigured(c) && OffsetsOf(c, s, p) && MayStart(c, s, Owner(p), true)
    ensures var called := Take(c, s, CallHandler(Owner(p)));
      && Enabled(c, called, Answer(Owner(p), Ignored, false)) && t == Take(c, called, Answer(Owner(p), Ignored, false))
    ensures HasEnded(t, p) && FlightPosition(t, p) == FlightPosition(s, p) && OffsetsOf(c, t, p)
    ensures InHand(s, Owner(p)).source in t.answered && t.resolved == s.resolved && t.committed == s.committed && t.logs == s.logs
  {
    var called := Take(c, s, CallHandler(Owner(p)));
    t := Take(c, called, Answer(Owner(p), Ignored, false));
    StepKeepsOffsetsOf(c, s, CallHandler(Owner(p)), p);
    StepKeepsOffsetsOf(c, called, Answer(Owner(p), Ignored, false), p);
  }

  lemma ItIsCommitted(c: Config, s: State, p: Partition) returns (t: State)
    requires OffsetsOf(c, s, p) && HasEnded(s, p)
    ensures var returned, offset := Take(c, s, Return(p)), s.flights[p].offset + 1;
      && Enabled(c, s, Return(p)) && Enabled(c, returned, CommitOffset(p, offset))
      && t == Take(c, returned, CommitOffset(p, offset))
      && Committed(t, p) == Resolved(t, p) == Resolved(s, p) + 1 && p !in t.flights && t.answered == s.answered
  {
    t := Take(c, Take(c, s, Return(p)), CommitOffset(p, s.flights[p].offset + 1));
  }

  /** The steps, each enabled when its turn comes, lead from one state to the other. */
  ghost predicate Leads(c: Config, s: State, steps: seq<Step>, t: State)
    decreases |steps|
  {
    if steps == [] then s == t
    else Enabled(c, s, steps[0]) && Leads(c, Take(c, s, steps[0]), steps[1..], t)
  }

  lemma {:induction false} LeadsOn(c: Config, s: State, steps: seq<Step>, t: State, more: seq<Step>, u: State)
    requires Leads(c, s, steps, t) && Leads(c, t, more, u)
    ensures Leads(c, s, steps + more, u)
    decreases |steps|
  {
    if steps == [] {
      assert steps + more == more;
    } else {
      LeadsOn(c, Take(c, s, steps[0]), steps[1..], t, more, u);
      assert (steps + more)[1..] == steps[1..] + more;
    }
  }

  lemma LeadsByTwo(c: Config, s: State, first: Step, second: Step)
    requires Enabled(c, s, first) && Enabled(c, Take(c, s, first), second)
    ensures Leads(c, s, [first, second], Take(c, Take(c, s, first), second))
  {
    var t := Take(c, Take(c, s, first), second);
    assert Leads(c, t, [], t);
    assert [second][1..] == [];
    assert Leads(c, Take(c, s, first), [second], t);
    assert [first, second][1..] == [second];
  }

  lemma Regrouped(run: seq<Step>, steps: seq<Step>)
    requires steps != []
    ensures (run + [steps[0]]) + steps[1..] == run + steps
  {
  }

  /** What a reachable state leads to is reachable, by the same steps. */
  lemma {:induction false} LeadsIsARun(c: Config, start: int, run: seq<Step>, s: State, steps: seq<Step>, t: State)
    requires After(c, start, run) == Some(s) && Leads(c, s, steps, t)
    ensures After(c, start, run + steps) == Some(t)
    decreases |steps|
  {
    if steps == [] {
      assert run + steps == run;
    } else {
      AfterOneMore(c, start, run, steps[0]);
      Regrouped(run, steps);
      LeadsIsARun(c, start, run + [steps[0]], Take(c, s, steps[0]), steps[1..], t);
    }
  }

  /** The six steps that see the next record of a partition through. */
  function SeenThrough(s: State, p: Partition): seq<Step>
    requires Resolved(s, p) < |Log(s, p)|
  {
    var who := Owner(p);
    [Tick(DueAt(s, NextRecord(s, p))), Fetch(p)] +
    ([CallHandler(who), Answer(who, Ignored, false)] + [Return(p), CommitOffset(p, Resolved(s, p) + 1)])
  }

  lemma FetchedMayStart(c: Config, start: int, run: seq<Step>, p: Partition) returns (t: State)
    requires WellConfigured(c) && "null" !in c.sources && After(c, start, run).Some?
    requires Next(c, After(c, start, run).value, p)
    ensures var s := After(c, start, run).value;
      && Leads(c, s, [Tick(DueAt(s, NextRecord(s, p))), Fetch(p)], t) && OffsetsOf(c, t, p)
      && MayStart(c, t, Owner(p), true) && InHand(t, Owner(p)) == NextRecord(s, p) && Resolved(t, p) == Resolved(s, p)
  {
    var s := After(c, start, run).value;
    t := ItIsFetched(c, s, p);
    LeadsByTwo(c, s, Tick(DueAt(s, NextRecord(s, p))), Fetch(p));
    LeadsIsARun(c, start, run, s, [Tick(DueAt(s, NextRecord(s, p))), Fetch(p)], t);
    EveryRunIsSound(c, start, run + [Tick(DueAt(s, NextRecord(s, p))), Fetch(p)]);
    EveryRecordHasItsHandler(c, t, Owner(p));
  }

  lemma AnsweredThenCommitted(c: Config, s: State, p: Partition) returns (t: State)
    requires WellConfigured(c) && OffsetsOf(c, s, p) && MayStart(c, s, Owner(p), true)
    ensures Leads(c, s, [CallHandler(Owner(p)), Answer(Owner(p), Ignored, false)] + [Return(p), CommitOffset(p, Resolved(s, p) + 1)], t)
    ensures InHand(s, Owner(p)).source in t.answered
    ensures Committed(t, p) == Resolved(t, p) == Resolved(s, p) + 1 && p !in t.flights
  {
    var answered := ItIsAnswered(c, s, p);
    LeadsByTwo(c, s, CallHandler(Owner(p)), Answer(Owner(p), Ignored, false));
    t := ItIsCommitted(c, answered, p);
    LeadsByTwo(c, answered, Return(p), CommitOffset(p, Resolved(s, p) + 1));
    LeadsOn(c, s, [CallHandler(Owner(p)), Answer(Owner(p), Ignored, false)], answered,
            [Return(p), CommitOffset(p, Resolved(s, p) + 1)], t);
  }

  lemma SeenThroughLeads(c: Config, s: State, fetched: State, p: Partition) returns (t: State)
    requires WellConfigured(c) && Next(c, s, p) && Leads(c, s, [Tick(DueAt(s, NextRecord(s, p))), Fetch(p)], fetched)
    requires OffsetsOf(c, fetched, p) && MayStart(c, fetched, Owner(p), true)
    requires InHand(fetched, Owner(p)) == NextRecord(s, p) && Resolved(fetched, p) == Resolved(s, p)
    ensures Leads(c, s, SeenThrough(s, p), t) && NextRecord(s, p).source in t.answered
    ensures Committed(t, p) == Resolved(t, p) == Resolved(s, p) + 1 && p !in t.flights
  {
    var who := Owner(p);
    var first, second := [Tick(DueAt(s, NextRecord(s, p))), Fetch(p)], [CallHandler(who), Answer(who, Ignored, false)];
    var third := [Return(p), CommitOffset(p, Resolved(s, p) + 1)];
    t := AnsweredThenCommitted(c, fetched, p);
    LeadsOn(c, s, first, fetched, second + third, t);
  }

  /**
   * From every reachable state, the next record of any partition nobody is at can be waited for,
   * fetched, handled and committed, and its message is then answered.
   */
  lemma AnyRecordCanBeSeenThrough(c: Config, start: int, run: seq<Step>, p: Partition) returns (t: State)
    requires WellConfigured(c) && "null" !in c.sources && After(c, start, run).Some?
    requires Next(c, After(c, start, run).value, p)
    ensures var s := After(c, start, run).value;
      && After(c, start, run + SeenThrough(s, p)) == Some(t)
      && NextRecord(s, p).source in t.answered
      && Committed(t, p) == Resolved(t, p) == Resolved(s, p) + 1 && p !in t.flights
  {
    var s := After(c, start, run).value;
    var fetched := FetchedMayStart(c, start, run, p);
    t := SeenThroughLeads(c, s, fetched, p);
    LeadsIsARun(c, start, run, s, SeenThrough(s, p), t);
  }

  /**
   * A handler about to answer may claim, and so apply, exactly while its id is not in the ledger, and
   * call it a duplicate exactly while it is; what it claims and applies is its own id and no more.
   */
  lemma AnswersAreDecidedByTheLedger(c: Config, s: State, who: Worker, outcome: Outcome, claims: bool, id: string)
    requires Working(s, who) && PhaseOf(s, who).Running? && MessageId(InHand(s, who).message) == Some(id)
    ensures Enabled(c, s, Answer(who, Applied, true)) <==> id !in s.ledger
    ensures Enabled(c, s, Answer(who, Duplicate, false)) <==> id in s.ledger
    ensures Enabled(c, s, Answer(who, outcome, claims)) ==>
      && (outcome.Applied? || outcome.Superseded? ==> claims)
      && var t := Take(c, s, Answer(who, outcome, claims));
         && t.ledger == (if claims then s.ledger + {id} else s.ledger)
         && t.effects == (if outcome.Applied? then s.effects + [id] else s.effects)
         && t.answered == s.answered + {InHand(s, who).source}
  {
  }

  /**
   * What may go wrong may go wrong at any point: any delivery may crash or lose its partition, to
   * resume anywhere from the committed offset on; a retry's wait may meet a shutdown and a
   * republication go unacknowledged.
   */
  lemma AnyDeliveryMayBeInterrupted(c: Config, s: State, p: Partition, number: nat, resume: nat)
    requires Flying(s, p) && number !in s.strays && Committed(s, p) <= resume <= Resolved(s, p)
    ensures Enabled(c, s, Interrupt(p, Crash, resume)) && Resolved(Take(c, s, Interrupt(p, Crash, resume)), p) == resume
    ensures p !in Take(c, s, Interrupt(p, Crash, resume)).flights
    ensures s.flights[p].phase.Waiting? ==> Enabled(c, s, Interrupt(p, ShutdownDuringBackoff, resume))
    ensures s.flights[p].phase.Failed? || s.flights[p].phase.Sent? ==> Enabled(c, s, Interrupt(p, RepublishNotAcknowledged, resume))
    ensures Enabled(c, s, Reassign(p, number, resume))
    ensures var t := Take(c, s, Reassign(p, number, resume));
      && p !in t.flights && Resolved(t, p) == resume && Working(t, Stray(number))
      && At(t, Stray(number)) == FlightPosition(s, p) && PhaseOf(t, Stray(number)) == s.flights[p].phase
  {
  }

  /** And whoever works on a record, owner or stray, may do all there is to do with it. */
  lemma AnyWorkerMayWork(c: Config, s: State, who: Worker, error: Error, target: Partition, draw: real)
    requires Working(s, who) && IsRetry(c, target) && Draw(draw)
    ensures PhaseOf(s, who).Running? ==>
      && Enabled(c, s, Throw(who, error)) && Enabled(c, s, Answer(who, Ignored, false))
      && PhaseOf(Take(c, s, Throw(who, error)), who) == Failed(error, PhaseOf(s, who).since, s.now)
    ensures PhaseOf(s, who).Failed? ==> Enabled(c, s, Republish(who, target, draw))
    ensures PhaseOf(s, who).Waiting? && Due(c, s, At(s, who).partition, InHand(s, who)) ==>
      Enabled(c, s, CallHandler(who)) || Enabled(c, s, FindNoHandler(who))
  {
  }

  /** A source takes any message without own headers, whose id was not retired; a ledger row goes when nothing of it is left. */
  lemma SourcesAndLedgerAreOpen(c: Config, s: State, p: Partition, message: Message, id: string)
    ensures IsSource(c, p) && Unmarked(message) && (MessageId(message).Some? ==> MessageId(message).value !in s.retired) ==>
      && Enabled(c, s, Produce(p, message))
      && var t := Take(c, s, Produce(p, message));
         |Log(t, p)| == |Log(s, p)| + 1 && Log(t, p)[|Log(s, p)|].message == message
    ensures id in s.ledger && !AtLarge(c, s, id) ==>
      Enabled(c, s, PurgeLedger(id)) && id !in Take(c, s, PurgeLedger(id)).ledger
  {
  }

  /** A retry without an instant to wait for is due whatever the clock says, and so is every source message. */
  lemma NothingToWaitFor(c: Config, s: State, p: Partition, r: Record)
    requires !IsRetry(c, p) || !Raw(r.message.headers, NOT_BEFORE_HEADER).Stamp?
    ensures Due(c, s, p, r)
  {
  }
}
