/** Whole lives of a date: what its event log says of it, and that it is made public once. */
module DateHistory {
  import opened Options
  import opened CoreRules
  import opened Publication
  import opened PerformanceDates

  /** The date after a life of acts, refused and unmoved ones included, from its draft. */
  function Life(rules: Rules, draft: DateDraft, now: Instant, acts: seq<Act>): DateValue {
    if acts == [] then Drafted(draft, now)
    else
      var before := Life(rules, draft, now, acts[..|acts| - 1]);
      match AnswerTo(rules, before, acts[|acts| - 1])
      case Moved(date) => date
      case _ => before
  }

  // ---------- reading the log alone ----------

  /** Whom an event is about. */
  datatype Ids = Ids(dateId: string, channelId: string, showId: string, venueId: string)

  /** What a reader who has only the events knows of the date. */
  datatype View = View(
    ids: Option<Ids>, state: PublicationState, version: int, replayOnlineAt: Option<Instant>,
    public: Option<PublicDateFacts>, engagedAt: Option<Instant>, postponements: nat, declared: Option<Event>,
    scheduled: nat, engaged: nat)

  function Seen(view: View, event: Event): View {
    match event
    case DateDrafted(dateId, channelId, showId, venueId, _) => view.(ids := Some(Ids(dateId, channelId, showId, venueId)))
    case PublicationStateChanged(change) =>
      view.(state := change.to, version := view.version + 1,
            replayOnlineAt := if change.to.ReplayOnline? then Some(change.occurredAt) else view.replayOnlineAt)
    case DateScheduled(facts, _) => view.(public := Some(facts), scheduled := view.scheduled + 1)
    case PublicationEngaged(_, _, occurredAt) => view.(engagedAt := Some(occurredAt), engaged := view.engaged + 1)
    case DateOutcomeDeclared(_, _, _, _, _, _) => view.(version := view.version + 1, declared := Some(event))
    case DateRescheduled(_, _, _, newStartsAt, _, newSlug, _) =>
      view.(postponements := view.postponements + 1,
            public := if view.public.None? then None
                      else Some(view.public.value.(startsAt := newStartsAt, slug := newSlug)))
  }

  function Folded(events: seq<Event>): View {
    if events == [] then View(None, Draft, 1, None, None, None, 0, None, 0, 0)
    else Seen(Folded(events[..|events| - 1]), events[|events| - 1])
  }

  /** Each event is about the date drafted first, and starts from where the ones before it left it. */
  predicate Follows(view: View, event: Event) {
    if event.DateDrafted? then view.ids.None?
    else
      && view.ids.Some?
      && var Ids(date, channel, show, venue) := view.ids.value;
         match event
         case PublicationStateChanged(change) =>
           && change.dateId == date && change.channelId == channel
           && change.from == view.state && change.version == view.version + 1
         case DateScheduled(facts, _) =>
           && Ids(facts.dateId, facts.channelId, facts.showId, facts.venueId) == view.ids.value
           && view.public.None? && view.scheduled == 0
         case PublicationEngaged(dateId, channelId, _) =>
           dateId == date && channelId == channel && view.public.Some? && view.engaged == 0
         case DateOutcomeDeclared(dateId, channelId, _, _, _, _) =>
           dateId == date && channelId == channel && view.public.Some?
         case DateRescheduled(dateId, showId, previousStartsAt, newStartsAt, previousSlug, _, _) =>
           && dateId == date && showId == show && view.public.Some?
           && view.public.value.startsAt == previousStartsAt && view.public.value.slug == previousSlug
           && view.declared.Some? && view.declared.value.DateOutcomeDeclared? && view.declared.value.rescheduledTo == Some(newStartsAt)
  }

  predicate Chained(events: seq<Event>) {
    events != [] ==>
      Chained(events[..|events| - 1]) && Follows(Folded(events[..|events| - 1]), events[|events| - 1])
  }

  lemma OneMore(events: seq<Event>, event: Event)
    ensures Folded(events + [event]) == Seen(Folded(events), event)
    ensures Chained(events + [event]) <==> Chained(events) && Follows(Folded(events), event)
  {
    assert (events + [event])[..|events|] == events;
  }

  // ---------- what every life keeps ----------

  /** The outcome the date holds is the last one declared, with its message, its instant and its new start. */
  predicate OutcomeIs(facts: DateFacts, declared: Option<Event>) {
    match declared
    case None => facts.outcome.None? && facts.rescheduledTo.None? && facts.outcomeDeclaredAt.None? && facts.outcomeMessage.None?
    case Some(event) =>
      && event.DateOutcomeDeclared?
      && facts.outcome == Some(event.outcome) && facts.rescheduledTo == event.rescheduledTo
      && facts.outcomeDeclaredAt == Some(event.occurredAt) && facts.outcomeMessage == Some(event.message)
  }

  /** The date as its log describes it, and made public in all three ways or in none. */
  ghost predicate Agrees(d: DateValue) {
    var view := Folded(d.events);
    && view.ids == Some(Ids(d.facts.id, d.facts.channelId, d.facts.showId, d.facts.venueId))
    && d.publication.dateId == d.facts.id && d.publication.channelId == d.facts.channelId
    && view.state == d.publication.state
    && view.version == d.publication.version
    && view.public == (if d.facts.slug.Some? then Some(PublicFactsOf(d.facts)) else None)
    && view.postponements == d.facts.postponements
    && OutcomeIs(d.facts, view.declared)
    && view.engagedAt == d.publication.publishedAt == d.publication.pricesLockedAt
    && (d.facts.slug.Some? <==> view.engagedAt.Some?)
    && view.replayOnlineAt == d.publication.replayOnlineAt
    && view.scheduled == view.engaged == (if d.facts.slug.Some? then 1 else 0)
    && Chained(d.events)
  }

  lemma TransitionAgrees(rules: Rules, d: DateValue, command: Command, context: PublicationContext)
    requires Agrees(d) && TransitionAnswer(rules, d, command, context).Moved?
    ensures Agrees(TransitionAnswer(rules, d, command, context).date)
  {
    var decision := Transitioned(rules, d.publication, command, context.satisfied, context.now);
    var changed := PublicationStateChanged(decision.changed);
    OneMore(d.events, changed);
    if decision.engaged {
      var facts := d.facts.(slug := context.freeSlug, runtimeMin := context.showRuntimeMin);
      var scheduled := DateScheduled(PublicFactsOf(facts), context.now);
      var engaged := PublicationEngaged(d.publication.dateId, d.publication.channelId, context.now);
      OneMore(d.events + [changed], scheduled);
      OneMore(d.events + [changed] + [scheduled], engaged);
      assert d.events + [changed, scheduled, engaged] == d.events + [changed] + [scheduled] + [engaged];
    }
  }

  lemma LearningAgrees(rules: Rules, d: DateValue, to: PublicationState, now: Instant)
    requires Agrees(d) && (to.Live? || to.Ended?) && LearnAnswer(rules, d, to, now).Moved?
    ensures Agrees(LearnAnswer(rules, d, to, now).date)
  {
    OneMore(d.events, PublicationStateChanged(Learned(rules, d.publication, to, now).changed));
  }

  lemma OutcomeAgrees(rules: Rules, d: DateValue, expectedVersion: int, declaration: Declaration,
                      message: Message, context: OutcomeContext)
    requires Agrees(d) && OutcomeAnswer(rules, d, expectedVersion, declaration, message, context).Moved?
    ensures Agrees(OutcomeAnswer(rules, d, expectedVersion, declaration, message, context).date)
  {
    var declared := DateOutcomeDeclared(d.facts.id, d.facts.channelId, declaration.outcome, message,
                                        declaration.rescheduledTo, context.now);
    OneMore(d.events, declared);
    if declaration.rescheduledTo.Some? {
      var rescheduled := DateRescheduled(d.facts.id, d.facts.showId, d.facts.startsAt, declaration.rescheduledTo.value,
                                         d.facts.slug.value, context.slugAtNewStart.value, context.now);
      OneMore(d.events + [declared], rescheduled);
      assert d.events + [declared, rescheduled] == d.events + [declared] + [rescheduled];
    }
  }

  lemma ActAgrees(rules: Rules, d: DateValue, act: Act)
    requires Agrees(d) && AnswerTo(rules, d, act).Moved?
    ensures Agrees(AnswerTo(rules, d, act).date)
  {
    match act
    case TransitionPublication(command, context) => TransitionAgrees(rules, d, command, context);
    case LearnRunStarted(now) => LearningAgrees(rules, d, Live, now);
    case LearnRunEnded(now) => LearningAgrees(rules, d, Ended, now);
    case DeclareOutcome(expectedVersion, declaration, message, context) =>
      OutcomeAgrees(rules, d, expectedVersion, declaration, message, context);
  }

  /**
   * Over every life and for any decision tables, folding the applied events gives the date back: its
   * ids, state, version, public facts, outcome, instants and postponement count; and each event is
   * about that date and starts where the last one ended.
   */
  lemma {:induction false} TheLogAgreesWithTheDate(rules: Rules, draft: DateDraft, now: Instant, acts: seq<Act>)
    ensures Agrees(Life(rules, draft, now, acts))
  {
    if acts == [] {
      OneMore([], DraftedEvent(draft, now));
      assert [DraftedEvent(draft, now)] == [] + [DraftedEvent(draft, now)];
    } else {
      var before := acts[..|acts| - 1];
      TheLogAgreesWithTheDate(rules, draft, now, before);
      var d := Life(rules, draft, now, before);
      if AnswerTo(rules, d, acts[|acts| - 1]).Moved? {
        ActAgrees(rules, d, acts[|acts| - 1]);
      }
    }
  }

  // ---------- counting ----------

  function StateChanges(events: seq<Event>): nat {
    if events == [] then 0
    else StateChanges(events[..|events| - 1]) + if events[|events| - 1].PublicationStateChanged? then 1 else 0
  }

  function Outcomes(events: seq<Event>): nat {
    if events == [] then 0
    else Outcomes(events[..|events| - 1]) + if events[|events| - 1].DateOutcomeDeclared? then 1 else 0
  }

  lemma {:induction false} FoldedVersionCounts(events: seq<Event>)
    ensures Folded(events).version == 1 + StateChanges(events) + Outcomes(events)
  {
    if events != [] {
      FoldedVersionCounts(events[..|events| - 1]);
    }
  }

  /** The version counts the changes of state and the outcomes, and nothing else. */
  lemma VersionCountsChanges(rules: Rules, draft: DateDraft, now: Instant, acts: seq<Act>)
    ensures var d := Life(rules, draft, now, acts);
      d.publication.version == 1 + StateChanges(d.events) + Outcomes(d.events)
  {
    TheLogAgreesWithTheDate(rules, draft, now, acts);
    FoldedVersionCounts(Life(rules, draft, now, acts).events);
  }

  // ---------- publishing happens once ----------

  /** What publication fixes, from one moment of a life to a later one. */
  ghost predicate PublicationHolds(earlier: DateValue, later: DateValue) {
    earlier.facts.slug.Some? ==>
      && later.facts.slug.Some?
      && later.facts.runtimeMin == earlier.facts.runtimeMin
      && later.publication.publishedAt == earlier.publication.publishedAt
      && later.publication.pricesLockedAt == earlier.publication.pricesLockedAt
  }

  /** The one act that makes a date public sets the three together, to that act's instant and slug. */
  lemma PublishedInOneAct(rules: Rules, d: DateValue, act: Act)
    requires Agrees(d) && AnswerTo(rules, d, act).Moved?
    requires d.facts.slug.None? && AnswerTo(rules, d, act).date.facts.slug.Some?
    ensures var date := AnswerTo(rules, d, act).date;
      && act.TransitionPublication?
      && date.facts.slug == act.publishing.freeSlug
      && date.facts.runtimeMin == act.publishing.showRuntimeMin
      && date.publication.publishedAt == date.publication.pricesLockedAt == Some(act.publishing.now)
      && |date.events| == |d.events| + 3
      && date.events[|d.events|].PublicationStateChanged?
      && date.events[|d.events| + 1] == DateScheduled(PublicFactsOf(date.facts), act.publishing.now)
      && date.events[|d.events| + 2].PublicationEngaged?
  {
  }

  lemma ActKeepsPublication(rules: Rules, d: DateValue, act: Act)
    requires Agrees(d) && AnswerTo(rules, d, act).Moved?
    ensures PublicationHolds(d, AnswerTo(rules, d, act).date)
  {
  }

  /**
   * Over every life and for any tables: once public a date stays public, its running time and its
   * two publication instants never change again, and `DateScheduled` was applied exactly once.
   */
  lemma {:induction false} PublishingHappensOnce(rules: Rules, draft: DateDraft, now: Instant, acts: seq<Act>, n: nat)
    requires n <= |acts|
    ensures PublicationHolds(Life(rules, draft, now, acts[..n]), Life(rules, draft, now, acts))
    ensures Folded(Life(rules, draft, now, acts).events).scheduled <= 1
    decreases |acts|
  {
    TheLogAgreesWithTheDate(rules, draft, now, acts);
    if n < |acts| {
      var before := acts[..|acts| - 1];
      PublishingHappensOnce(rules, draft, now, before, n);
      assert before[..n] == acts[..n];
      TheLogAgreesWithTheDate(rules, draft, now, before);
      var d := Life(rules, draft, now, before);
      if AnswerTo(rules, d, acts[|acts| - 1]).Moved? {
        ActKeepsPublication(rules, d, acts[|acts| - 1]);
      }
    } else {
      assert acts[..n] == acts;
    }
  }

  // ---------- who published it ----------

  /** The act at `i` of a life published the date: allowed to engage the prices, and with its checklist ready. */
  ghost predicate Publishes(rules: Rules, draft: DateDraft, now: Instant, acts: seq<Act>, i: nat)
    requires i < |acts|
  {
    var before, after := Life(rules, draft, now, acts[..i]), Life(rules, draft, now, acts[..i + 1]);
    && before.facts.slug.None? && after.facts.slug.Some?
    && acts[i].TransitionPublication?
    && rules.commanded(before.publication.state, before.publication.version, acts[i].command) == Allowed(Some(PricesEngaged))
    && rules.ready(acts[i].publishing.satisfied)
    && after.facts.slug == acts[i].publishing.freeSlug
    && after.facts.runtimeMin == acts[i].publishing.showRuntimeMin
    && after.publication.publishedAt == Some(acts[i].publishing.now)
  }

  lemma PublishedOnlyWhenReady(rules: Rules, d: DateValue, act: Act)
    requires Agrees(d) && AnswerTo(rules, d, act).Moved?
    requires d.facts.slug.None? && AnswerTo(rules, d, act).date.facts.slug.Some?
    ensures act.TransitionPublication? && rules.ready(act.publishing.satisfied)
    ensures rules.commanded(d.publication.state, d.publication.version, act.command) == Allowed(Some(PricesEngaged))
  {
  }

  lemma PublishesStill(rules: Rules, draft: DateDraft, now: Instant, acts: seq<Act>, n: nat, i: nat)
    requires i < n <= |acts|
    ensures Publishes(rules, draft, now, acts[..n], i) <==> Publishes(rules, draft, now, acts, i)
  {
    assert acts[..n][..i] == acts[..i] && acts[..n][..i + 1] == acts[..i + 1] && acts[..n][i] == acts[i];
  }

  lemma TheLastActPublishes(rules: Rules, draft: DateDraft, now: Instant, acts: seq<Act>)
    requires acts != [] && Life(rules, draft, now, acts).facts.slug.Some?
    requires Life(rules, draft, now, acts[..|acts| - 1]).facts.slug.None?
    ensures Publishes(rules, draft, now, acts, |acts| - 1)
  {
    var before, act := acts[..|acts| - 1], acts[|acts| - 1];
    var d := Life(rules, draft, now, before);
    TheLogAgreesWithTheDate(rules, draft, now, before);
    assert acts[..|acts|] == acts;
    PublishedOnlyWhenReady(rules, d, act);
    PublishedInOneAct(rules, d, act);
  }

  lemma PublishedOnce(rules: Rules, draft: DateDraft, now: Instant, acts: seq<Act>, i: nat, j: nat)
    requires i < j < |acts| && Publishes(rules, draft, now, acts, i)
    ensures !Publishes(rules, draft, now, acts, j)
  {
    PublishingHappensOnce(rules, draft, now, acts[..j], i + 1);
    assert acts[..j][..i + 1] == acts[..i + 1];
  }

  /** Over every life, a public date was published by exactly one act, and that act's checklist was ready. */
  lemma {:induction false} PublishedByAReadyAct(rules: Rules, draft: DateDraft, now: Instant, acts: seq<Act>) returns (i: nat)
    requires Life(rules, draft, now, acts).facts.slug.Some?
    ensures i < |acts| && Publishes(rules, draft, now, acts, i)
    ensures forall j :: 0 <= j < |acts| && j != i ==> !Publishes(rules, draft, now, acts, j)
  {
    var n := |acts| - 1;
    if Life(rules, draft, now, acts[..n]).facts.slug.Some? {
      i := PublishedByAReadyAct(rules, draft, now, acts[..n]);
      PublishesStill(rules, draft, now, acts, n, i);
    } else {
      i := n;
      TheLastActPublishes(rules, draft, now, acts);
    }
    forall j | 0 <= j < |acts| && j != i ensures !Publishes(rules, draft, now, acts, j) {
      if i < j {
        PublishedOnce(rules, draft, now, acts, i, j);
      } else if Publishes(rules, draft, now, acts, j) {
        PublishedOnce(rules, draft, now, acts, j, i);
      }
    }
  }

  /** A date restored from its rows goes on as if it had never left: an act only adds to the log. */
  lemma ReloadingContinuesTheLife(rules: Rules, d: DateValue, act: Act)
    ensures var reloaded := AnswerTo(rules, d.(events := []), act);
      AnswerTo(rules, d, act) ==
        if reloaded.Moved? then Moved(reloaded.date.(events := d.events + reloaded.date.events)) else reloaded
  {
    var reloaded := AnswerTo(rules, d.(events := []), act);
    if reloaded.Moved? {
      assert AnswerTo(rules, d, act).date.events == d.events + reloaded.date.events;
    }
  }
}
