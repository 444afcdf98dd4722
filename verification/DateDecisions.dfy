/**
 * Which act goes through, which is refused and with what, in the terms of core's tables and of the
 * date alone; and all that an act that goes through leaves.
 */
module DateDecisions {
  import opened Options
  import opened CoreRules
  import opened Publication
  import opened PerformanceDates

  /** The date at one more version, in another state or not, with these events after its own. */
  ghost predicate OneMore(d: DateValue, date: DateValue, state: PublicationState, events: seq<Event>) {
    && date.publication.version == d.publication.version + 1
    && date.publication.state == state
    && date.publication.dateId == d.publication.dateId && date.publication.channelId == d.publication.channelId
    && date.events == d.events + events
  }

  /** A draft is what it was asked to be, worldwide, and everything that comes later is not there yet. */
  lemma DraftsAreBare(draft: DateDraft, now: Instant)
    ensures var date := Drafted(draft, now);
      && DateDraft(date.facts.id, date.facts.showId, date.facts.venueId, date.facts.channelId, date.facts.startsAt,
                   date.facts.runtimeMin, date.facts.replayPolicy, date.facts.replayWindowHours) == draft
      && date.facts.rights == WORLDWIDE && date.facts.slug.None? && date.facts.postponements == 0
      && date.facts.outcome.None? && date.facts.rescheduledTo.None?
      && date.facts.outcomeDeclaredAt.None? && date.facts.outcomeMessage.None?
      && date.publication == PublicationSnapshot(draft.id, draft.channelId, PublicationState.Draft, 1, None, None, None)
      && date.events == [DateDrafted(draft.id, draft.channelId, draft.showId, draft.venueId, now)]
  {
  }

  /** What a date tells the public is what it is: each fact under its own name. */
  lemma PublicFactsSayTheDate(facts: DateFacts)
    requires facts.slug.Some?
    ensures var public := PublicFactsOf(facts);
      && public.dateId == facts.id && public.channelId == facts.channelId && public.showId == facts.showId
      && public.venueId == facts.venueId && public.startsAt == facts.startsAt && public.runtimeMin == facts.runtimeMin
      && public.replayPolicy == facts.replayPolicy && public.replayWindowHours == facts.replayWindowHours
      && public.rights == facts.rights && Some(public.slug) == facts.slug
  {
  }

  /** The event every change of state applies. */
  function ChangeOf(d: DateValue, to: PublicationState, irreversible: bool, now: Instant): Event {
    PublicationStateChanged(StateChange(d.publication.dateId, d.publication.channelId, d.publication.state, to,
                                        d.publication.version + 1, irreversible, now))
  }

  /** A transition core allows for another promise, or none, moves the publication and nothing of the date. */
  ghost predicate Transits(d: DateValue, date: DateValue, command: Command, promise: Option<Promise>, now: Instant) {
    && OneMore(d, date, command.to, [ChangeOf(d, command.to, promise.Some?, now)])
    && date.facts == d.facts
    && date.publication.publishedAt == d.publication.publishedAt
    && date.publication.pricesLockedAt == d.publication.pricesLockedAt
    && date.publication.replayOnlineAt == if command.to.ReplayOnline? then Some(now) else d.publication.replayOnlineAt
  }

  /** Publishing gives the slug and the running time, and applies its three events in this order. */
  ghost predicate GoesPublic(d: DateValue, date: DateValue, command: Command, context: PublicationContext) {
    && context.freeSlug.Some?
    && date.facts == d.facts.(slug := context.freeSlug, runtimeMin := context.showRuntimeMin)
    && OneMore(d, date, command.to,
               [ChangeOf(d, command.to, true, context.now), DateScheduled(PublicFactsOf(date.facts), context.now),
                PublicationEngaged(d.publication.dateId, d.publication.channelId, context.now)])
    && date.publication.publishedAt == (if d.publication.publishedAt.Some? then d.publication.publishedAt else Some(context.now))
    && date.publication.pricesLockedAt ==
         (if d.publication.pricesLockedAt.Some? then d.publication.pricesLockedAt else Some(context.now))
    && date.publication.replayOnlineAt == if command.to.ReplayOnline? then Some(context.now) else d.publication.replayOnlineAt
  }

  /**
   * A transition is refused as core forbids it, then for an incomplete checklist when it would
   * publish, then for a date already public; only then does it move the date.
   */
  lemma TransitionsAreDecided(rules: Rules, d: DateValue, command: Command, context: PublicationContext)
    ensures var answer := AnswerTo(rules, d, TransitionPublication(command, context));
      match rules.commanded(d.publication.state, d.publication.version, command)
      case Forbidden(refusal) => answer == RefusedWith(refusal)
      case Allowed(promise) =>
        if promise != Some(PricesEngaged) then answer.Moved? && Transits(d, answer.date, command, promise, context.now)
        else if !rules.ready(context.satisfied) then answer == RefusedWith(ChecklistIncomplete(rules.missing(context.satisfied)))
        else if d.facts.slug.Some? then answer == RefusedWith(TransitionForbidden(d.publication.state, command.to))
        else if context.freeSlug.None? then answer.RefusedWith? && answer.refusal.Defect?
        else answer.Moved? && GoesPublic(d, answer.date, command, context)
  {
  }

  /** A move another context caused: where it leads from each state, and that nothing else of the date moves. */
  ghost predicate Learns(rules: Rules, d: DateValue, answer: Answer, to: PublicationState, now: Instant) {
    if rules.eventDriven(d.publication.state, to) then
      && answer.Moved? && OneMore(d, answer.date, to, [ChangeOf(d, to, false, now)]) && answer.date.facts == d.facts
      && answer.date.publication == d.publication.(state := to, version := d.publication.version + 1)
    else answer == RefusedWith(TransitionForbidden(d.publication.state, to))
  }

  lemma RunFactsAreDecided(rules: Rules, d: DateValue, now: Instant)
    ensures var started, ended := AnswerTo(rules, d, LearnRunStarted(now)), AnswerTo(rules, d, LearnRunEnded(now));
      match d.publication.state
      case Technical => Learns(rules, d, started, Live, now) && ended == RefusedWith(EndedBeforeStarted(d.facts.id))
      case Live => started == Unmoved && Learns(rules, d, ended, Ended, now)
      case Ended => started == Unmoved && ended == Unmoved
      case ReplayOnline => started == Unmoved && ended == Unmoved
      case _ => Learns(rules, d, started, Live, now) && Learns(rules, d, ended, Ended, now)
  {
  }

  /** What the outcome rule is asked about: the date as it stands. */
  function AskedOf(d: DateValue): OutcomeFacts {
    var DateFacts(_, _, _, _, startsAt, runtimeMin, policy, window, _, _, postponements, outcome, _, _, _) := d.facts;
    OutcomeFacts(outcome, postponements, d.publication.state, startsAt, runtimeMin, policy,
                 match window case Some(hours) => hours case None => 0)
  }

  /** What a declared outcome leaves: the four facts of it, the move when there is one, and their events. */
  ghost predicate Declares(d: DateValue, date: DateValue, declaration: Declaration, message: Message, context: OutcomeContext) {
    var told := d.facts.(outcome := Some(declaration.outcome), rescheduledTo := declaration.rescheduledTo,
                         outcomeDeclaredAt := Some(context.now), outcomeMessage := Some(message));
    var event := DateOutcomeDeclared(d.facts.id, d.facts.channelId, declaration.outcome, message, declaration.rescheduledTo, context.now);
    && date.publication == d.publication.(version := d.publication.version + 1)
    && match declaration.rescheduledTo
       case None => date.facts == told && date.events == d.events + [event]
       case Some(start) =>
         && context.slugAtNewStart.Some? && d.facts.slug.Some?
         && date.facts == told.(startsAt := start, slug := context.slugAtNewStart, postponements := d.facts.postponements + 1)
         && date.events == d.events + [event, DateRescheduled(d.facts.id, d.facts.showId, d.facts.startsAt, start,
                                                              d.facts.slug.value, context.slugAtNewStart.value, context.now)]
  }

  /** It goes through exactly from the current version, when core's rule lets it and the slugs are there. */
  lemma OutcomesAreDecided(rules: Rules, d: DateValue, expectedVersion: int, declaration: Declaration,
                           message: Message, context: OutcomeContext)
    ensures var answer := AnswerTo(rules, d, DeclareOutcome(expectedVersion, declaration, message, context));
      var refused := rules.outcomeRefused(AskedOf(d), declaration, context.now);
      if expectedVersion != d.publication.version then
        answer == RefusedWith(StateConflict(d.publication.version, d.publication.state))
      else if refused.Some? then answer == RefusedWith(refused.value)
      else if d.facts.slug.None? || (declaration.rescheduledTo.Some? && context.slugAtNewStart.None?) then
        answer.RefusedWith? && answer.refusal.Defect?
      else answer.Moved? && Declares(d, answer.date, declaration, message, context)
  {
  }
}
