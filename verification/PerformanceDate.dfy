/** The `PerformanceDate` aggregate: what each command and learned fact decides, and the object that does it. */
module PerformanceDates {
  import opened Options
  import opened CoreRules
  import opened Publication

  datatype Message = Message(contentLanguage: string, text: string)

  datatype DateFacts = DateFacts(
    id: string, showId: string, venueId: string, channelId: string, startsAt: Instant, runtimeMin: int,
    replayPolicy: ReplayPolicy, replayWindowHours: Option<int>, rights: string,
    slug: Option<string>, postponements: nat, outcome: Option<DateOutcome>, rescheduledTo: Option<Instant>,
    outcomeDeclaredAt: Option<Instant>, outcomeMessage: Option<Message>)

  /** The fields of `DateFacts` a draft fixes; the others start empty. */
  datatype DateDraft = DateDraft(
    id: string, showId: string, venueId: string, channelId: string, startsAt: Instant, runtimeMin: int,
    replayPolicy: ReplayPolicy, replayWindowHours: Option<int>)

  /** The payload of `DateScheduled`. */
  datatype PublicDateFacts = PublicDateFacts(
    dateId: string, channelId: string, showId: string, venueId: string, startsAt: Instant, runtimeMin: int,
    replayPolicy: ReplayPolicy, replayWindowHours: Option<int>, rights: string, slug: string)

  datatype Event =
    | DateDrafted(dateId: string, channelId: string, showId: string, venueId: string, occurredAt: Instant)
    | DateScheduled(facts: PublicDateFacts, occurredAt: Instant)
    | DateOutcomeDeclared(dateId: string, channelId: string, outcome: DateOutcome, message: Message,
                          rescheduledTo: Option<Instant>, occurredAt: Instant)
    | DateRescheduled(dateId: string, showId: string, previousStartsAt: Instant, newStartsAt: Instant,
                      previousSlug: string, newSlug: string, occurredAt: Instant)
    | PublicationStateChanged(change: StateChange)
    | PublicationEngaged(dateId: string, channelId: string, occurredAt: Instant)

  datatype PublicationContext = PublicationContext(
    satisfied: set<string>, freeSlug: Option<string>, showRuntimeMin: int, now: Instant)

  datatype OutcomeContext = OutcomeContext(slugAtNewStart: Option<string>, now: Instant)

  /** The aggregate as a value: the date's facts, its publication, and the events it has applied. */
  datatype DateValue = DateValue(facts: DateFacts, publication: PublicationSnapshot, events: seq<Event>)

  datatype Act =
    | TransitionPublication(command: Command, publishing: PublicationContext)
    | LearnRunStarted(startedAt: Instant)
    | LearnRunEnded(endedAt: Instant)
    | DeclareOutcome(expectedVersion: int, declaration: Declaration, message: Message, context: OutcomeContext)

  datatype Answer = Moved(date: DateValue) | Unmoved | RefusedWith(refusal: Refusal)

  const WORLDWIDE := "worldwide"

  function PublicFactsOf(date: DateFacts): PublicDateFacts
    requires date.slug.Some?
  {
    PublicDateFacts(date.id, date.channelId, date.showId, date.venueId, date.startsAt, date.runtimeMin,
                    date.replayPolicy, date.replayWindowHours, date.rights, date.slug.value)
  }

  function DraftedEvent(draft: DateDraft, now: Instant): Event {
    DateDrafted(draft.id, draft.channelId, draft.showId, draft.venueId, now)
  }

  function Drafted(draft: DateDraft, now: Instant): DateValue {
    DateValue(
      DateFacts(draft.id, draft.showId, draft.venueId, draft.channelId, draft.startsAt, draft.runtimeMin,
                draft.replayPolicy, draft.replayWindowHours, WORLDWIDE, None, 0, None, None, None, None),
      DraftOf(draft.id, draft.channelId),
      [DraftedEvent(draft, now)])
  }

  predicate RunAlreadyEnded(state: PublicationState) { state.Ended? || state.ReplayOnline? }

  predicate RunAlreadyStarted(state: PublicationState) { state.Live? || RunAlreadyEnded(state) }

  function TransitionAnswer(rules: Rules, d: DateValue, command: Command, context: PublicationContext): Answer {
    match Transitioned(rules, d.publication, command, context.satisfied, context.now)
    case Refused(refusal) => RefusedWith(refusal)
    case Decided(publication, changed, engaged) =>
      if !engaged then
        Moved(d.(publication := publication, events := d.events + [PublicationStateChanged(changed)]))
      else if d.facts.slug.Some? then RefusedWith(TransitionForbidden(d.publication.state, command.to))
      else if context.freeSlug.None? then RefusedWith(Defect("publishing a date without its free slug"))
      else
        var facts := d.facts.(slug := context.freeSlug, runtimeMin := context.showRuntimeMin);
        Moved(DateValue(facts, publication,
                        d.events + [PublicationStateChanged(changed), DateScheduled(PublicFactsOf(facts), context.now),
                                    PublicationEngaged(publication.dateId, publication.channelId, context.now)]))
  }

  function LearnAnswer(rules: Rules, d: DateValue, to: PublicationState, now: Instant): Answer {
    match Learned(rules, d.publication, to, now)
    case Refused(refusal) => RefusedWith(refusal)
    case Decided(publication, changed, _) =>
      Moved(d.(publication := publication, events := d.events + [PublicationStateChanged(changed)]))
  }

  function RunStartedAnswer(rules: Rules, d: DateValue, now: Instant): Answer {
    if RunAlreadyStarted(d.publication.state) then Unmoved else LearnAnswer(rules, d, Live, now)
  }

  function RunEndedAnswer(rules: Rules, d: DateValue, now: Instant): Answer {
    if RunAlreadyEnded(d.publication.state) then Unmoved
    else if d.publication.state.Technical? then RefusedWith(EndedBeforeStarted(d.facts.id))
    else LearnAnswer(rules, d, Ended, now)
  }

  function OutcomeFactsOf(facts: DateFacts, state: PublicationState): OutcomeFacts {
    OutcomeFacts(facts.outcome, facts.postponements, state, facts.startsAt, facts.runtimeMin, facts.replayPolicy,
                 if facts.replayWindowHours.Some? then facts.replayWindowHours.value else 0)
  }

  function OutcomeAnswer(rules: Rules, d: DateValue, expectedVersion: int, declaration: Declaration,
                         message: Message, context: OutcomeContext): Answer
  {
    match AdvancedFrom(d.publication, expectedVersion)
    case Stale(refusal) => RefusedWith(refusal)
    case Advanced(publication) =>
      var refused := rules.outcomeRefused(OutcomeFactsOf(d.facts, publication.state), declaration, context.now);
      var movedTo := declaration.rescheduledTo;
      if refused.Some? then RefusedWith(refused.value)
      else if d.facts.slug.None? then RefusedWith(Defect("public without a slug"))
      else if movedTo.Some? && context.slugAtNewStart.None? then RefusedWith(Defect("a postponement without its new slug"))
      else
        var declared := d.facts.(outcome := Some(declaration.outcome), rescheduledTo := movedTo,
                                 outcomeDeclaredAt := Some(context.now), outcomeMessage := Some(message));
        var event := DateOutcomeDeclared(d.facts.id, d.facts.channelId, declaration.outcome, message, movedTo, context.now);
        if movedTo.None? then Moved(DateValue(declared, publication, d.events + [event]))
        else
          var moved := declared.(startsAt := movedTo.value, slug := context.slugAtNewStart,
                                 postponements := d.facts.postponements + 1);
          Moved(DateValue(moved, publication,
                          d.events + [event, DateRescheduled(d.facts.id, d.facts.showId, d.facts.startsAt, movedTo.value,
                                                             d.facts.slug.value, context.slugAtNewStart.value, context.now)]))
  }

  function AnswerTo(rules: Rules, d: DateValue, act: Act): Answer {
    match act
    case TransitionPublication(command, context) => TransitionAnswer(rules, d, command, context)
    case LearnRunStarted(now) => RunStartedAnswer(rules, d, now)
    case LearnRunEnded(now) => RunEndedAnswer(rules, d, now)
    case DeclareOutcome(expectedVersion, declaration, message, context) =>
      OutcomeAnswer(rules, d, expectedVersion, declaration, message, context)
  }

  // ---------- the object ----------

  /** A frozen snapshot: an object of its own, whose contents never change. */
  class DateSnapshot {
    const facts: DateFacts

    constructor (facts: DateFacts)
      ensures this.facts == facts
    {
      this.facts := facts;
    }
  }

  datatype Done = Did(moved: bool) | DidNot(refusal: Refusal)

  /**
   * The aggregate object. `current` is replaced, never edited: the repository tells a changed date
   * from an unchanged one by that reference alone.
   */
  class PerformanceDate {
    const rules: Rules
    var current: DateSnapshot
    var publication: PublicationSnapshot
    var uncommitted: seq<Event>

    ghost function Value(): DateValue
      reads this
    {
      DateValue(current.facts, publication, uncommitted)
    }

    constructor Restore(rules: Rules, facts: DateFacts, publication: PublicationSnapshot)
      ensures this.rules == rules && fresh(current)
      ensures Value() == DateValue(facts, publication, [])
    {
      this.rules := rules;
      current := new DateSnapshot(facts);
      this.publication := publication;
      uncommitted := [];
    }

    constructor NewDraft(rules: Rules, draft: DateDraft, now: Instant)
      ensures this.rules == rules && fresh(current)
      ensures Value() == Drafted(draft, now)
    {
      this.rules := rules;
      current := new DateSnapshot(Drafted(draft, now).facts);
      publication := DraftOf(draft.id, draft.channelId);
      uncommitted := [DraftedEvent(draft, now)];
    }

    method Apply(event: Event)
      modifies this`uncommitted
      ensures uncommitted == old(uncommitted) + [event]
    {
      uncommitted := uncommitted + [event];
    }

    /** What every command promises: its answer's value, or nothing touched; a new reference iff new facts were set. */
    twostate predicate Answers(answer: Answer, done: Done)
      reads this
    {
      match answer
      case Moved(date) => done == Did(true) && Value() == date
      case Unmoved => done == Did(false) && Value() == old(Value()) && current == old(current)
      case RefusedWith(refusal) => done == DidNot(refusal) && Value() == old(Value()) && current == old(current)
    }

    method TransitionPublication(command: Command, context: PublicationContext) returns (done: Done)
      modifies this
      ensures Answers(TransitionAnswer(rules, old(Value()), command, context), done)
      ensures current == old(current) || fresh(current)
    {
      var decision := Transitioned(rules, publication, command, context.satisfied, context.now);
      if decision.Refused? {
        return DidNot(decision.refusal);
      }
      if !decision.engaged {
        publication := decision.publication;
        Apply(PublicationStateChanged(decision.changed));
        return Did(true);
      }
      if current.facts.slug.Some? {
        return DidNot(TransitionForbidden(publication.state, command.to));
      }
      if context.freeSlug.None? {
        return DidNot(Defect("publishing a date without its free slug"));
      }
      var facts := current.facts.(slug := context.freeSlug, runtimeMin := context.showRuntimeMin);
      publication := decision.publication;
      current := new DateSnapshot(facts);
      Apply(PublicationStateChanged(decision.changed));
      Apply(DateScheduled(PublicFactsOf(facts), context.now));
      Apply(PublicationEngaged(publication.dateId, publication.channelId, context.now));
      done := Did(true);
    }

    method LearnPublicationState(to: PublicationState, now: Instant) returns (done: Done)
      modifies this
      ensures Answers(LearnAnswer(rules, old(Value()), to, now), done)
      ensures current == old(current)
    {
      var decision := Learned(rules, publication, to, now);
      if decision.Refused? {
        return DidNot(decision.refusal);
      }
      publication := decision.publication;
      Apply(PublicationStateChanged(decision.changed));
      done := Did(true);
    }

    method LearnRunStarted(now: Instant) returns (done: Done)
      modifies this
      ensures Answers(RunStartedAnswer(rules, old(Value()), now), done)
      ensures current == old(current)
    {
      if RunAlreadyStarted(publication.state) {
        return Did(false);
      }
      done := LearnPublicationState(Live, now);
    }

    method LearnRunEnded(now: Instant) returns (done: Done)
      modifies this
      ensures Answers(RunEndedAnswer(rules, old(Value()), now), done)
      ensures current == old(current)
    {
      if RunAlreadyEnded(publication.state) {
        return Did(false);
      }
      if publication.state.Technical? {
        return DidNot(EndedBeforeStarted(current.facts.id));
      }
      done := LearnPublicationState(Ended, now);
    }

    method DeclareOutcome(expectedVersion: int, declaration: Declaration, message: Message, context: OutcomeContext)
      returns (done: Done)
      modifies this
      ensures Answers(OutcomeAnswer(rules, old(Value()), expectedVersion, declaration, message, context), done)
      ensures done.DidNot? || fresh(current)
    {
      var advance := AdvancedFrom(publication, expectedVersion);
      if advance.Stale? {
        return DidNot(advance.refusal);
      }
      var date := current.facts;
      var refused := rules.outcomeRefused(OutcomeFactsOf(date, advance.publication.state), declaration, context.now);
      if refused.Some? {
        return DidNot(refused.value);
      }
      if date.slug.None? {
        return DidNot(Defect("public without a slug"));
      }
      var movedTo := declaration.rescheduledTo;
      var slug := date.slug;
      if movedTo.Some? {
        if context.slugAtNewStart.None? {
          return DidNot(Defect("a postponement without its new slug"));
        }
        slug := context.slugAtNewStart;
      }
      publication := advance.publication;
      current := new DateSnapshot(date.(
        outcome := Some(declaration.outcome), rescheduledTo := movedTo, outcomeDeclaredAt := Some(context.now),
        outcomeMessage := Some(message), startsAt := if movedTo.Some? then movedTo.value else date.startsAt,
        slug := slug, postponements := date.postponements + if movedTo.Some? then 1 else 0));
      Apply(DateOutcomeDeclared(date.id, date.channelId, declaration.outcome, message, movedTo, context.now));
      if movedTo.Some? {
        Apply(DateRescheduled(date.id, date.showId, date.startsAt, movedTo.value, date.slug.value, slug.value, context.now));
      }
      done := Did(true);
    }
  }
}
