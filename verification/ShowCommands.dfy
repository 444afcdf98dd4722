/**
 * The commands on the dates of one show: drafts, transitions, outcomes and run facts on any of them,
 * each publication and postponement given the slug that is free when it runs.
 */
module ShowCommands {
  import opened Options
  import opened CoreRules
  import opened Publication
  import opened PerformanceDates
  import opened DateHistory
  import DateDecisions
  import Slugs = DateSlugs

  /** Core's tables, the venues' wall clocks, and how long a retired slug goes on leading to its date. */
  datatype Setting = Setting(rules: Rules, wallOf: (string, Instant) -> Slugs.Wall, redirectMs: int)

  ghost predicate WellSet(setting: Setting) {
    forall venueId, at :: Slugs.OnTheClock(setting.wallOf(venueId, at))
  }

  /** The show's dates, each with all the events it ever applied, and its retired slugs. */
  datatype State = State(dates: map<string, DateValue>, aliases: map<string, Slugs.Alias>, now: Instant)

  function Initial(now: Instant): State { State(map[], map[], now) }

  datatype StudioCommand =
    | Draft(draft: DateDraft, now: Instant)
    | Transition(id: string, command: Command, satisfied: set<string>, showRuntimeMin: int,
                 replayRefusal: Option<Refusal>, now: Instant)
    | Declare(id: string, expectedVersion: int, outcome: DateOutcome, rescheduledTo: Option<Instant>,
              message: Message, now: Instant)
    | LearnStart(id: string, now: Instant)
    | LearnEnd(id: string, now: Instant)

  datatype Reply = Done(moved: bool) | Rejected(refusal: Refusal) | NotFound

  function IdOf(command: StudioCommand): string {
    if command.Draft? then command.draft.id else command.id
  }

  /** What slug allocation sees of the show. */
  function ShowOf(setting: Setting, s: State): Slugs.Show {
    Slugs.Show(map id | id in s.dates && s.dates[id].facts.slug.Some? :: s.dates[id].facts.slug.value,
               s.aliases, s.now, setting.redirectMs)
  }

  /** The slug that is free for a date at an instant of its venue. */
  function FreeSlugAt(setting: Setting, s: State, facts: DateFacts, id: string, at: Instant, now: Instant): string {
    Slugs.FreeSlug(ShowOf(setting, s), id, setting.wallOf(facts.venueId, at), now)
  }

  /** `declarationOf`: only a postponement keeps its new start, and it has one. */
  function DeclarationOf(outcome: DateOutcome, rescheduledTo: Option<Instant>): Option<Declaration> {
    if !outcome.Postponed? then Some(Declaration(outcome, None))
    else if rescheduledTo.None? then None
    else Some(Declaration(outcome, rescheduledTo))
  }

  /** The act a command comes to on its date, its context filled in; none for a postponement to nowhere. */
  function ActOf(setting: Setting, s: State, facts: DateFacts, command: StudioCommand): Option<Act>
    requires !command.Draft?
  {
    match command
    case Transition(id, to, satisfied, runtime, _, now) =>
      var free := if facts.slug.None? then Some(FreeSlugAt(setting, s, facts, id, facts.startsAt, now)) else None;
      Some(TransitionPublication(to, PublicationContext(satisfied, free, runtime, now)))
    case Declare(id, expectedVersion, outcome, rescheduledTo, message, now) =>
      (match DeclarationOf(outcome, rescheduledTo)
       case None => None
       case Some(declaration) =>
         var movedTo := declaration.rescheduledTo;
         var slug := if movedTo.None? then None else Some(FreeSlugAt(setting, s, facts, id, movedTo.value, now));
         Some(DeclareOutcome(expectedVersion, declaration, message, OutcomeContext(slug, now))))
    case LearnStart(_, now) => Some(LearnRunStarted(now))
    case LearnEnd(_, now) => Some(LearnRunEnded(now))
  }

  /** A move to another slug retires the one it left. */
  function RetiredBy(aliases: map<string, Slugs.Alias>, event: Event, redirectMs: int): map<string, Slugs.Alias> {
    if event.DateRescheduled? && event.newSlug != event.previousSlug then
      aliases[event.previousSlug := Slugs.Alias(event.dateId, event.occurredAt + redirectMs)]
    else aliases
  }

  function Retired(aliases: map<string, Slugs.Alias>, events: seq<Event>, redirectMs: int): map<string, Slugs.Alias> {
    if events == [] then aliases
    else RetiredBy(Retired(aliases, events[..|events| - 1], redirectMs), events[|events| - 1], redirectMs)
  }

  /** Putting the replay online may be refused after the date decided, which undoes the whole command. */
  function ReplayRefusal(command: StudioCommand): Option<Refusal> {
    if command.Transition? && command.command.to.ReplayOnline? then command.replayRefusal else None
  }

  /** One command under the show's lock. */
  function Commanded(setting: Setting, s: State, command: StudioCommand): (State, Reply) {
    if command.Draft? then
      if command.draft.id in s.dates then (s, Rejected(Defect("a date already has this id")))
      else (s.(dates := s.dates[command.draft.id := Drafted(command.draft, command.now)], now := command.now), Done(true))
    else if command.id !in s.dates then (s, NotFound)
    else
      var date := s.dates[command.id];
      match ActOf(setting, s, date.facts, command)
      case None => (s, Rejected(Defect("a postponement without rescheduledTo")))
      case Some(act) => Answered(setting, s, command, AnswerTo(setting.rules, date.(events := []), act))
  }

  /** What the answer of a loaded date leaves: its rows and the slugs it retires, or nothing. */
  function Answered(setting: Setting, s: State, command: StudioCommand, answer: Answer): (State, Reply)
    requires !command.Draft? && command.id in s.dates
  {
    match answer
    case RefusedWith(refusal) => (s, Rejected(refusal))
    case Unmoved => (s, Done(false))
    case Moved(moved) =>
      if ReplayRefusal(command).Some? then (s, Rejected(ReplayRefusal(command).value))
      else
        (State(s.dates[command.id := moved.(events := s.dates[command.id].events + moved.events)],
               Retired(s.aliases, moved.events, setting.redirectMs), command.now), Done(true))
  }

  function After(setting: Setting, start: Instant, run: seq<StudioCommand>): State {
    if run == [] then Initial(start)
    else Commanded(setting, After(setting, start, run[..|run| - 1]), run[|run| - 1]).0
  }

  // ---------- what each command comes to ----------

  /** A refused or unmoved command leaves the show; one that moved its date leaves that date, the others and the clock. */
  ghost predicate LeavesOthers(s: State, t: State, id: string, now: Instant) {
    && t.now == now && id in t.dates
    && (forall other :: other != id ==>
          (other in s.dates <==> other in t.dates) && (other in s.dates ==> t.dates[other] == s.dates[other]))
  }

  lemma DraftsAreDecided(setting: Setting, s: State, draft: DateDraft, now: Instant)
    ensures var (t, reply) := Commanded(setting, s, StudioCommand.Draft(draft, now));
      if draft.id in s.dates then t == s && reply.Rejected?
      else reply == Done(true) && LeavesOthers(s, t, draft.id, now) && t.dates[draft.id] == Drafted(draft, now) && t.aliases == s.aliases
  {
  }

  /** What an answer to a date's act leaves of the show, its events appended to what it had applied before. */
  ghost predicate Carries(setting: Setting, s: State, t: State, reply: Reply, id: string, act: Act, now: Instant)
    requires id in s.dates
  {
    match AnswerTo(setting.rules, s.dates[id], act)
    case RefusedWith(refusal) => t == s && reply == Rejected(refusal)
    case Unmoved => t == s && reply == Done(false)
    case Moved(date) => reply == Done(true) && LeavesOthers(s, t, id, now) && t.dates[id] == date
  }

  lemma RunFactsAreCarried(setting: Setting, s: State, id: string, now: Instant)
    requires id in s.dates
    ensures var (t, reply) := Commanded(setting, s, LearnStart(id, now)); Carries(setting, s, t, reply, id, LearnRunStarted(now), now)
    ensures var (t, reply) := Commanded(setting, s, LearnEnd(id, now)); Carries(setting, s, t, reply, id, LearnRunEnded(now), now)
  {
    ReloadingContinuesTheLife(setting.rules, s.dates[id], LearnRunStarted(now));
    ReloadingContinuesTheLife(setting.rules, s.dates[id], LearnRunEnded(now));
  }

  /** A transition is given the slug free at the date's start while it has none; a replay that refuses undoes it. */
  lemma TransitionsAreCarried(setting: Setting, s: State, id: string, command: Command, satisfied: set<string>,
                              runtime: int, replayRefusal: Option<Refusal>, now: Instant)
    requires id in s.dates
    ensures var (t, reply) := Commanded(setting, s, Transition(id, command, satisfied, runtime, replayRefusal, now));
      var facts := s.dates[id].facts;
      var free := Slugs.FreeSlug(ShowOf(setting, s), id, setting.wallOf(facts.venueId, facts.startsAt), now);
      var act := TransitionPublication(command, PublicationContext(satisfied, if facts.slug.None? then Some(free) else None, runtime, now));
      if command.to.ReplayOnline? && replayRefusal.Some? && AnswerTo(setting.rules, s.dates[id], act).Moved? then
        t == s && reply == Rejected(replayRefusal.value)
      else Carries(setting, s, t, reply, id, act, now)
  {
    var facts := s.dates[id].facts;
    var free := Slugs.FreeSlug(ShowOf(setting, s), id, setting.wallOf(facts.venueId, facts.startsAt), now);
    ReloadingContinuesTheLife(setting.rules, s.dates[id],
      TransitionPublication(command, PublicationContext(satisfied, if facts.slug.None? then Some(free) else None, runtime, now)));
  }

  /** A postponement must say when to, and is given the slug free then; any other outcome moves nothing, whatever it says. */
  lemma OutcomesAreCarried(setting: Setting, s: State, id: string, expectedVersion: int, outcome: DateOutcome,
                           rescheduledTo: Option<Instant>, message: Message, now: Instant)
    requires id in s.dates
    ensures var (t, reply) := Commanded(setting, s, Declare(id, expectedVersion, outcome, rescheduledTo, message, now));
      if outcome.Postponed? && rescheduledTo.None? then t == s && reply.Rejected?
      else
        var movedTo := if outcome.Postponed? then rescheduledTo else None;
        var free := if movedTo.None? then None
                    else Some(Slugs.FreeSlug(ShowOf(setting, s), id, setting.wallOf(s.dates[id].facts.venueId, movedTo.value), now));
        Carries(setting, s, t, reply, id,
                DeclareOutcome(expectedVersion, Declaration(outcome, movedTo), message, OutcomeContext(free, now)), now)
  {
    var movedTo := if outcome.Postponed? then rescheduledTo else None;
    var free := if movedTo.None? then None
                else Some(Slugs.FreeSlug(ShowOf(setting, s), id, setting.wallOf(s.dates[id].facts.venueId, movedTo.value), now));
    ReloadingContinuesTheLife(setting.rules, s.dates[id],
      DeclareOutcome(expectedVersion, Declaration(outcome, movedTo), message, OutcomeContext(free, now)));
  }

  lemma UnknownDatesAreNotFound(setting: Setting, s: State, command: StudioCommand)
    requires !command.Draft? && command.id !in s.dates
    ensures Commanded(setting, s, command) == (s, NotFound)
  {
  }

  // ---------- every run ----------

  /** Each date is under its own id, and could have been given the slug it holds. */
  ghost predicate Filed(s: State) {
    forall id :: id in s.dates ==> s.dates[id].facts.id == id
  }

  ghost predicate WellKept(setting: Setting, s: State, ids: set<string>) {
    && Filed(s) && s.dates.Keys <= ids
    && Slugs.WellSlugged(ShowOf(setting, s), ids)
  }

  /** The ids drafts are given: those of the show's dates, all different in their last eight characters. */
  ghost predicate DateIds(ids: set<string>) {
    Slugs.TailsDistinct(ids) && forall id :: id in ids ==> Slugs.IsDateId(id)
  }

  ghost predicate Names(run: seq<StudioCommand>, ids: set<string>) {
    forall i :: 0 <= i < |run| ==> IdOf(run[i]) in ids
  }

  /** Two readings of the show that differ in the clock alone are as well slugged. */
  lemma ClockAside(show: Slugs.Show, ids: set<string>, now: Instant)
    requires Slugs.WellSlugged(show, ids)
    ensures Slugs.WellSlugged(show.(now := now), ids)
  {
    var later := show.(now := now);
    forall slug ensures Slugs.AliasStands(later, ids, slug) {
      assert Slugs.AliasStands(show, ids, slug);
    }
  }

  lemma RetiredByOne(aliases: map<string, Slugs.Alias>, event: Event, redirectMs: int)
    ensures Retired(aliases, [event], redirectMs) == RetiredBy(aliases, event, redirectMs)
  {
    assert [event][..0] == [];
  }

  lemma RetiredByTwo(aliases: map<string, Slugs.Alias>, first: Event, second: Event, redirectMs: int)
    ensures Retired(aliases, [first, second], redirectMs) ==
              RetiredBy(RetiredBy(aliases, first, redirectMs), second, redirectMs)
  {
    assert [first, second][..1] == [first];
    RetiredByOne(aliases, first, redirectMs);
  }

  lemma RetiredByThree(aliases: map<string, Slugs.Alias>, first: Event, second: Event, third: Event, redirectMs: int)
    ensures Retired(aliases, [first, second, third], redirectMs) ==
              RetiredBy(RetiredBy(RetiredBy(aliases, first, redirectMs), second, redirectMs), third, redirectMs)
  {
    assert [first, second, third][..2] == [first, second];
    RetiredByTwo(aliases, first, second, redirectMs);
  }

  /** The slug a command's act may give its date, and the instant of the act. */
  function GivenSlug(act: Act): Option<string> {
    match act
    case TransitionPublication(_, publishing) => publishing.freeSlug
    case DeclareOutcome(_, _, _, context) => context.slugAtNewStart
    case _ => None
  }

  function ActedAt(act: Act): Instant {
    match act
    case TransitionPublication(_, publishing) => publishing.now
    case LearnRunStarted(startedAt) => startedAt
    case LearnRunEnded(endedAt) => endedAt
    case DeclareOutcome(_, _, _, context) => context.now
  }

  /** A date keeps its slug, or takes the one given and retires the other it held. */
  ghost predicate SlugMoves(before: DateFacts, after: DateFacts, given: Option<string>,
                            aliases: map<string, Slugs.Alias>, retired: map<string, Slugs.Alias>, expiry: Instant)
  {
    || (after.slug == before.slug && retired == aliases)
    || (&& given.Some? && after.slug == given
        && retired == if before.slug.None? || before.slug == given then aliases
                      else aliases[before.slug.value := Slugs.Alias(before.id, expiry)])
  }

  /** What a move of a date leaves of its slug and of the aliases. */
  ghost predicate SlugMovesAs(d: DateValue, moved: DateValue, act: Act, aliases: map<string, Slugs.Alias>, redirectMs: int) {
    SlugMoves(d.facts, moved.facts, GivenSlug(act), aliases, Retired(aliases, moved.events, redirectMs), ActedAt(act) + redirectMs)
  }

  lemma SlugAfterTransition(rules: Rules, d: DateValue, act: Act, aliases: map<string, Slugs.Alias>, redirectMs: int)
    requires d.events == [] && act.TransitionPublication? && AnswerTo(rules, d, act).Moved?
    ensures SlugMovesAs(d, AnswerTo(rules, d, act).date, act, aliases, redirectMs)
  {
    var moved, decision := AnswerTo(rules, d, act).date,
                           Transitioned(rules, d.publication, act.command, act.publishing.satisfied, act.publishing.now);
    var changed := PublicationStateChanged(decision.changed);
    if !decision.engaged {
      assert moved.events == [changed];
      RetiredByOne(aliases, changed, redirectMs);
    } else {
      var scheduled := DateScheduled(PublicFactsOf(moved.facts), act.publishing.now);
      var engaged := PublicationEngaged(d.publication.dateId, d.publication.channelId, act.publishing.now);
      assert moved.events == [changed, scheduled, engaged];
      RetiredByThree(aliases, changed, scheduled, engaged, redirectMs);
    }
  }

  lemma SlugAfterRun(rules: Rules, d: DateValue, act: Act, aliases: map<string, Slugs.Alias>, redirectMs: int)
    requires d.events == [] && (act.LearnRunStarted? || act.LearnRunEnded?) && AnswerTo(rules, d, act).Moved?
    ensures SlugMovesAs(d, AnswerTo(rules, d, act).date, act, aliases, redirectMs)
  {
    var to := if act.LearnRunStarted? then Live else Ended;
    var changed := PublicationStateChanged(Learned(rules, d.publication, to, ActedAt(act)).changed);
    assert AnswerTo(rules, d, act).date.events == [changed];
    RetiredByOne(aliases, changed, redirectMs);
  }

  lemma SlugAfterDeclared(d: DateValue, moved: DateValue, act: Act, aliases: map<string, Slugs.Alias>, redirectMs: int)
    requires d.events == [] && act.DeclareOutcome?
    requires DateDecisions.Declares(d, moved, act.declaration, act.message, act.context)
    ensures SlugMovesAs(d, moved, act, aliases, redirectMs)
  {
    var movedTo, at := act.declaration.rescheduledTo, act.context.now;
    var declared := DateOutcomeDeclared(d.facts.id, d.facts.channelId, act.declaration.outcome, act.message, movedTo, at);
    if movedTo.None? {
      assert moved.events == [declared];
      RetiredByOne(aliases, declared, redirectMs);
    } else {
      var rescheduled := DateRescheduled(d.facts.id, d.facts.showId, d.facts.startsAt, movedTo.value,
                                         d.facts.slug.value, act.context.slugAtNewStart.value, at);
      assert moved.events == [declared, rescheduled];
      RetiredByTwo(aliases, declared, rescheduled, redirectMs);
    }
  }

  lemma SlugAfterOutcome(rules: Rules, d: DateValue, act: Act, aliases: map<string, Slugs.Alias>, redirectMs: int)
    requires d.events == [] && act.DeclareOutcome? && AnswerTo(rules, d, act).Moved?
    ensures SlugMovesAs(d, AnswerTo(rules, d, act).date, act, aliases, redirectMs)
  {
    DateDecisions.OutcomesAreDecided(rules, d, act.expectedVersion, act.declaration, act.message, act.context);
    SlugAfterDeclared(d, AnswerTo(rules, d, act).date, act, aliases, redirectMs);
  }

  lemma SlugAfterAct(rules: Rules, d: DateValue, act: Act, aliases: map<string, Slugs.Alias>, redirectMs: int)
    requires d.events == [] && AnswerTo(rules, d, act).Moved?
    ensures SlugMovesAs(d, AnswerTo(rules, d, act).date, act, aliases, redirectMs)
  {
    match act
    case TransitionPublication(_, _) => SlugAfterTransition(rules, d, act, aliases, redirectMs);
    case DeclareOutcome(_, _, _, _) => SlugAfterOutcome(rules, d, act, aliases, redirectMs);
    case _ => SlugAfterRun(rules, d, act, aliases, redirectMs);
  }

  /** The show once a date is saved with a slug it held or is given, and the aliases that go with it. */
  lemma ShowOfSaved(setting: Setting, s: State, id: string, saved: DateValue, aliases: map<string, Slugs.Alias>, now: Instant)
    requires id in s.dates
    ensures var after := ShowOf(setting, State(s.dates[id := saved], aliases, now));
      && (saved.facts.slug == s.dates[id].facts.slug ==> after == ShowOf(setting, s).(aliases := aliases, now := now))
      && (saved.facts.slug.Some? ==> after.slugs == ShowOf(setting, s).slugs[id := saved.facts.slug.value])
  {
    var show, after := ShowOf(setting, s), ShowOf(setting, State(s.dates[id := saved], aliases, now));
    if saved.facts.slug == s.dates[id].facts.slug {
      assert after.slugs == show.slugs;
    }
  }

  /** So the show, the clock aside, is as it was, or has the date given that slug. */
  lemma ShowOfMoved(setting: Setting, s: State, id: string, saved: DateValue, given: Option<string>,
                    retired: map<string, Slugs.Alias>, now: Instant)
    requires Filed(s) && id in s.dates
    requires SlugMoves(s.dates[id].facts, saved.facts, given, s.aliases, retired, now + setting.redirectMs)
    ensures var after := ShowOf(setting, State(s.dates[id := saved], retired, now));
      || after == ShowOf(setting, s).(now := now)
      || (given.Some? && after == Slugs.Given(ShowOf(setting, s), id, given.value, now))
  {
    ShowOfSaved(setting, s, id, saved, retired, now);
  }

  /** The act of a command that went through, and what it made of its date. */
  lemma WentThrough(setting: Setting, s: State, command: StudioCommand) returns (act: Act, moved: DateValue)
    requires !command.Draft? && Commanded(setting, s, command).1 == Done(true)
    ensures command.id in s.dates && ActOf(setting, s, s.dates[command.id].facts, command) == Some(act)
    ensures AnswerTo(setting.rules, s.dates[command.id].(events := []), act) == Moved(moved)
    ensures ActedAt(act) == command.now
    ensures Commanded(setting, s, command).0 ==
              State(s.dates[command.id := moved.(events := s.dates[command.id].events + moved.events)],
                    Retired(s.aliases, moved.events, setting.redirectMs), command.now)
  {
    act := ActOf(setting, s, s.dates[command.id].facts, command).value;
    moved := AnswerTo(setting.rules, s.dates[command.id].(events := []), act).date;
  }

  lemma FreeSlugAtIsFree(setting: Setting, s: State, ids: set<string>, facts: DateFacts, id: string, at: Instant, now: Instant)
    requires WellSet(setting) && DateIds(ids) && WellKept(setting, s, ids) && id in ids
    ensures var slug := FreeSlugAt(setting, s, facts, id, at, now);
      Slugs.IsFree(ShowOf(setting, s), slug, id, now) && Slugs.OwnSlug(slug, id)
  {
    var wall := setting.wallOf(facts.venueId, at);
    Slugs.TheAnswerIsFree(ShowOf(setting, s), ids, id, wall, now);
    Slugs.TheAnswerIsOnesOwn(ShowOf(setting, s), id, wall, now);
  }

  /** Whatever slug a command's act is given was free for its date, and is one of its candidates. */
  lemma TheGivenSlugIsFree(setting: Setting, s: State, command: StudioCommand, ids: set<string>)
    requires WellSet(setting) && DateIds(ids) && WellKept(setting, s, ids) && !command.Draft? && command.id in s.dates
    requires ActOf(setting, s, s.dates[command.id].facts, command).Some?
    requires GivenSlug(ActOf(setting, s, s.dates[command.id].facts, command).value).Some?
    ensures var slug := GivenSlug(ActOf(setting, s, s.dates[command.id].facts, command).value).value;
      Slugs.IsFree(ShowOf(setting, s), slug, command.id, command.now) && Slugs.OwnSlug(slug, command.id)
  {
    var facts := s.dates[command.id].facts;
    var at := if command.Declare? then command.rescheduledTo.value else facts.startsAt;
    FreeSlugAtIsFree(setting, s, ids, facts, command.id, at, command.now);
  }

  lemma DraftsHoldNoSlug(setting: Setting, s: State, command: StudioCommand)
    requires command.Draft? && Commanded(setting, s, command).1 == Done(true)
    ensures ShowOf(setting, Commanded(setting, s, command).0) == ShowOf(setting, s).(now := command.now)
  {
    assert ShowOf(setting, Commanded(setting, s, command).0).slugs == ShowOf(setting, s).slugs;
  }

  lemma ActKeepsTheId(rules: Rules, d: DateValue, act: Act)
    requires AnswerTo(rules, d, act).Moved?
    ensures AnswerTo(rules, d, act).date.facts.id == d.facts.id
  {
  }

  lemma CommandKeepsFiled(setting: Setting, s: State, command: StudioCommand)
    requires Filed(s)
    ensures Filed(Commanded(setting, s, command).0)
    ensures Commanded(setting, s, command).0.dates.Keys <= s.dates.Keys + {IdOf(command)}
  {
    if Commanded(setting, s, command).1 != Done(true) {
      assert Commanded(setting, s, command).0 == s;
    } else if !command.Draft? {
      var act, moved := WentThrough(setting, s, command);
      ActKeepsTheId(setting.rules, s.dates[command.id].(events := []), act);
    }
  }

  /** The show after a command: the clock aside as it was, or a date given a slug free for it and its own. */
  ghost predicate ShowFollows(show: Slugs.Show, after: Slugs.Show, id: string, now: Instant) {
    || after == show
    || after == show.(now := now)
    || exists slug :: Slugs.IsFree(show, slug, id, now) && Slugs.OwnSlug(slug, id) && after == Slugs.Given(show, id, slug, now)
  }

  lemma GivenFollows(show: Slugs.Show, id: string, slug: string, now: Instant)
    requires Slugs.IsFree(show, slug, id, now) && Slugs.OwnSlug(slug, id)
    ensures ShowFollows(show, Slugs.Given(show, id, slug, now), id, now)
  {
  }

  lemma MoveFollows(setting: Setting, s: State, command: StudioCommand, ids: set<string>, act: Act, after: Slugs.Show)
    requires WellSet(setting) && DateIds(ids) && WellKept(setting, s, ids) && !command.Draft? && command.id in s.dates
    requires ActOf(setting, s, s.dates[command.id].facts, command) == Some(act)
    requires
      || after == ShowOf(setting, s).(now := command.now)
      || (GivenSlug(act).Some? && after == Slugs.Given(ShowOf(setting, s), command.id, GivenSlug(act).value, command.now))
    ensures ShowFollows(ShowOf(setting, s), after, command.id, command.now)
  {
    if GivenSlug(act).Some? {
      TheGivenSlugIsFree(setting, s, command, ids);
      GivenFollows(ShowOf(setting, s), command.id, GivenSlug(act).value, command.now);
    }
  }

  lemma ShowAfterMove(setting: Setting, s: State, command: StudioCommand) returns (act: Act)
    requires Filed(s) && !command.Draft? && Commanded(setting, s, command).1 == Done(true)
    ensures command.id in s.dates && ActOf(setting, s, s.dates[command.id].facts, command) == Some(act)
    ensures var after := ShowOf(setting, Commanded(setting, s, command).0);
      || after == ShowOf(setting, s).(now := command.now)
      || (GivenSlug(act).Some? && after == Slugs.Given(ShowOf(setting, s), command.id, GivenSlug(act).value, command.now))
  {
    var moved;
    act, moved := WentThrough(setting, s, command);
    var date := s.dates[command.id];
    SlugAfterAct(setting.rules, date.(events := []), act, s.aliases, setting.redirectMs);
    ShowOfMoved(setting, s, command.id, moved.(events := date.events + moved.events), GivenSlug(act),
                Retired(s.aliases, moved.events, setting.redirectMs), command.now);
  }

  /** The show before and after one command. */
  ghost predicate CommandFollows(setting: Setting, s: State, command: StudioCommand) {
    ShowFollows(ShowOf(setting, s), ShowOf(setting, Commanded(setting, s, command).0), IdOf(command), command.now)
  }

  lemma MovedFollows(setting: Setting, s: State, command: StudioCommand, ids: set<string>)
    requires WellSet(setting) && DateIds(ids) && WellKept(setting, s, ids)
    ensures !command.Draft? && Commanded(setting, s, command).1 == Done(true) ==> CommandFollows(setting, s, command)
  {
    if !command.Draft? && Commanded(setting, s, command).1 == Done(true) {
      var act := ShowAfterMove(setting, s, command);
      MoveFollows(setting, s, command, ids, act, ShowOf(setting, Commanded(setting, s, command).0));
    }
  }

  lemma UnmovedFollows(setting: Setting, s: State, command: StudioCommand)
    requires command.Draft? || Commanded(setting, s, command).1 != Done(true)
    ensures CommandFollows(setting, s, command)
  {
    if Commanded(setting, s, command).1 != Done(true) {
      assert Commanded(setting, s, command).0 == s;
    } else {
      DraftsHoldNoSlug(setting, s, command);
    }
  }

  lemma EveryCommandFollows(setting: Setting, s: State, command: StudioCommand, ids: set<string>)
    requires WellSet(setting) && DateIds(ids) && WellKept(setting, s, ids)
    ensures CommandFollows(setting, s, command)
  {
    if !command.Draft? && Commanded(setting, s, command).1 == Done(true) {
      MovedFollows(setting, s, command, ids);
    } else {
      UnmovedFollows(setting, s, command);
    }
  }

  lemma FollowingKeepsWellSlugged(show: Slugs.Show, after: Slugs.Show, ids: set<string>, id: string, now: Instant)
    requires Slugs.WellSlugged(show, ids) && id in ids && ShowFollows(show, after, id, now)
    ensures Slugs.WellSlugged(after, ids)
  {
    if after == show.(now := now) {
      ClockAside(show, ids, now);
    } else if after != show {
      var slug :| Slugs.IsFree(show, slug, id, now) && Slugs.OwnSlug(slug, id) && after == Slugs.Given(show, id, slug, now);
      Slugs.GivenKeepsWellSlugged(show, ids, id, slug, now);
    }
  }

  lemma CommandKeepsWellKept(setting: Setting, s: State, command: StudioCommand, ids: set<string>)
    requires WellSet(setting) && DateIds(ids) && WellKept(setting, s, ids) && IdOf(command) in ids
    ensures WellKept(setting, Commanded(setting, s, command).0, ids)
  {
    CommandKeepsFiled(setting, s, command);
    EveryCommandFollows(setting, s, command, ids);
    FollowingKeepsWellSlugged(ShowOf(setting, s), ShowOf(setting, Commanded(setting, s, command).0), ids, IdOf(command), command.now);
  }

  lemma {:induction false} EveryRunIsWellKept(setting: Setting, start: Instant, run: seq<StudioCommand>, ids: set<string>)
    requires WellSet(setting) && DateIds(ids) && Names(run, ids)
    ensures WellKept(setting, After(setting, start, run), ids)
  {
    if run == [] {
      assert ShowOf(setting, Initial(start)).slugs == map[];
    } else {
      EveryRunIsWellKept(setting, start, run[..|run| - 1], ids);
      CommandKeepsWellKept(setting, After(setting, start, run[..|run| - 1]), run[|run| - 1], ids);
    }
  }

  /** In every run of commands, for any tables, no two dates of the show hold the same slug. */
  lemma NoTwoDatesShareASlug(setting: Setting, start: Instant, run: seq<StudioCommand>, ids: set<string>, a: string, b: string)
    requires WellSet(setting) && DateIds(ids) && Names(run, ids)
    requires a in After(setting, start, run).dates && b in After(setting, start, run).dates
    ensures var dates := After(setting, start, run).dates;
      dates[a].facts.slug.Some? && dates[a].facts.slug == dates[b].facts.slug ==> a == b
  {
    var s := After(setting, start, run);
    EveryRunIsWellKept(setting, start, run, ids);
    var slugs := ShowOf(setting, s).slugs;
    assert s.dates[a].facts.slug.Some? ==> a in slugs;
    assert s.dates[b].facts.slug.Some? ==> b in slugs;
  }

  // ---------- retired links ----------

  ghost predicate Chronological(start: Instant, run: seq<StudioCommand>) {
    && (run != [] ==> start <= run[0].now)
    && (forall i :: 0 < i < |run| ==> run[i - 1].now <= run[i].now)
  }

  lemma FollowingKeepsLinks(show: Slugs.Show, after: Slugs.Show, id: string, now: Instant)
    requires Slugs.Unique(show) && Slugs.LinksHold(show) && show.now <= now && ShowFollows(show, after, id, now)
    ensures Slugs.LinksHold(after)
  {
    if after == show.(now := now) {
      LaterClockKeepsLinks(show, now);
    } else if after != show {
      var slug :| Slugs.IsFree(show, slug, id, now) && Slugs.OwnSlug(slug, id) && after == Slugs.Given(show, id, slug, now);
      Slugs.GivenKeepsLinks(show, id, slug, now);
    }
  }

  lemma CommandSetsTheClock(setting: Setting, s: State, command: StudioCommand)
    requires s.now <= command.now
    ensures Commanded(setting, s, command).0.now <= command.now
  {
  }

  lemma LaterClockKeepsLinks(show: Slugs.Show, now: Instant)
    requires Slugs.LinksHold(show) && show.now <= now
    ensures Slugs.LinksHold(show.(now := now))
  {
    forall id | id in show.slugs ensures Slugs.LeadsTo(show.(now := now), show.slugs[id], id) {
      assert Slugs.LeadsTo(show, show.slugs[id], id);
    }
  }

  /** While the clock does not go back, a date holding a retired slug before its expiry is the one it leads to. */
  lemma {:induction false} RetiredSlugsLeadHome(setting: Setting, start: Instant, run: seq<StudioCommand>, ids: set<string>)
    requires WellSet(setting) && DateIds(ids) && Names(run, ids) && Chronological(start, run)
    ensures Slugs.LinksHold(ShowOf(setting, After(setting, start, run)))
    ensures After(setting, start, run).now <= if run == [] then start else run[|run| - 1].now
  {
    if run != [] {
      var before := run[..|run| - 1];
      var s, command := After(setting, start, before), run[|run| - 1];
      assert Chronological(start, before) by {
        assert forall i :: 0 <= i < |before| ==> before[i] == run[i];
      }
      RetiredSlugsLeadHome(setting, start, before, ids);
      EveryRunIsWellKept(setting, start, before, ids);
      CommandSetsTheClock(setting, s, command);
      EveryCommandFollows(setting, s, command, ids);
      FollowingKeepsLinks(ShowOf(setting, s), ShowOf(setting, Commanded(setting, s, command).0), IdOf(command), command.now);
    }
  }

  // ---------- each date's own life ----------

  /** Every date in every run is one its log agrees with, and published in all three ways or in none. */
  lemma {:induction false} EveryDateAgreesWithItsLog(setting: Setting, start: Instant, run: seq<StudioCommand>, id: string)
    requires id in After(setting, start, run).dates
    ensures Agrees(After(setting, start, run).dates[id])
  {
    if run != [] {
      var before, command := run[..|run| - 1], run[|run| - 1];
      var s := After(setting, start, before);
      if id in s.dates {
        EveryDateAgreesWithItsLog(setting, start, before, id);
      }
      CommandKeepsAgreement(setting, s, command, id);
    }
  }

  lemma CommandKeepsAgreement(setting: Setting, s: State, command: StudioCommand, id: string)
    requires id in s.dates ==> Agrees(s.dates[id])
    requires id in Commanded(setting, s, command).0.dates
    ensures Agrees(Commanded(setting, s, command).0.dates[id])
  {
    if Commanded(setting, s, command).1 != Done(true) {
      assert Commanded(setting, s, command).0 == s;
    } else if IdOf(command) == id {
      if command.Draft? {
        TheLogAgreesWithTheDate(setting.rules, command.draft, command.now, []);
      } else {
        var act, moved := WentThrough(setting, s, command);
        ReloadingContinuesTheLife(setting.rules, s.dates[id], act);
        ActAgrees(setting.rules, s.dates[id], act);
      }
    }
  }

  // ---------- who published it ----------

  /** The command at `i` published the date: a transition of it, its checklist ready, given the slug that was free. */
  ghost predicate Publishes(setting: Setting, start: Instant, run: seq<StudioCommand>, i: nat, id: string)
    requires i < |run|
  {
    var s, t := After(setting, start, run[..i]), After(setting, start, run[..i + 1]);
    && run[i].Transition? && run[i].id == id
    && id in s.dates && id in t.dates && s.dates[id].facts.slug.None?
    && setting.rules.ready(run[i].satisfied)
    && setting.rules.commanded(s.dates[id].publication.state, s.dates[id].publication.version, run[i].command) ==
         Allowed(Some(PricesEngaged))
    && t.dates[id].facts.slug == Some(FreeSlugAt(setting, s, s.dates[id].facts, id, s.dates[id].facts.startsAt, run[i].now))
    && t.dates[id].publication.publishedAt == Some(run[i].now)
  }

  /** A command that gives a date its first slug is such a one. */
  lemma FirstSlugByAReadyCommand(setting: Setting, start: Instant, run: seq<StudioCommand>, id: string)
    requires run != []
    requires var t := After(setting, start, run); id in t.dates && t.dates[id].facts.slug.Some?
    requires var s := After(setting, start, run[..|run| - 1]); id in s.dates ==> s.dates[id].facts.slug.None?
    ensures Publishes(setting, start, run, |run| - 1, id)
  {
    var before, command := run[..|run| - 1], run[|run| - 1];
    var s := After(setting, start, before);
    assert run[..|run|] == run;
    assert Commanded(setting, s, command).1 == Done(true) && IdOf(command) == id && !command.Draft?;
    var act, moved := WentThrough(setting, s, command);
    EveryDateAgreesWithItsLog(setting, start, before, id);
    ReloadingContinuesTheLife(setting.rules, s.dates[id], act);
    PublishedOnlyWhenReady(setting.rules, s.dates[id], act);
    PublishedInOneAct(setting.rules, s.dates[id], act);
  }

  lemma PublishesStill(setting: Setting, start: Instant, run: seq<StudioCommand>, n: nat, i: nat, id: string)
    requires i < n <= |run| && Publishes(setting, start, run[..n], i, id)
    ensures Publishes(setting, start, run, i, id)
  {
    assert run[..n][..i] == run[..i] && run[..n][..i + 1] == run[..i + 1] && run[..n][i] == run[i];
  }

  /** In every run of commands, a date that holds a slug was published by a command whose checklist was ready. */
  lemma {:induction false} PublishedByAReadyCommand(setting: Setting, start: Instant, run: seq<StudioCommand>, id: string)
    returns (i: nat)
    requires id in After(setting, start, run).dates && After(setting, start, run).dates[id].facts.slug.Some?
    ensures i < |run| && Publishes(setting, start, run, i, id)
  {
    var before := run[..|run| - 1];
    var s := After(setting, start, before);
    if id in s.dates && s.dates[id].facts.slug.Some? {
      i := PublishedByAReadyCommand(setting, start, before, id);
      PublishesStill(setting, start, run, |run| - 1, i, id);
    } else {
      i := |run| - 1;
      FirstSlugByAReadyCommand(setting, start, run, id);
    }
  }

  // ---------- the handlers ----------

  /** The show's rows, as one transaction under its lock reads and writes them. */
  class Handlers {
    const setting: Setting
    var dates: map<string, DateValue>
    var aliases: map<string, Slugs.Alias>
    var now: Instant

    ghost function Value(): State
      reads this
    {
      State(dates, aliases, now)
    }

    constructor (setting: Setting, now: Instant)
      ensures this.setting == setting && Value() == Initial(now)
    {
      this.setting := setting;
      dates, aliases, this.now := map[], map[], now;
    }

    /** `retireSlugsMovedFrom`: one event at a time. */
    method RetireMoved(events: seq<Event>)
      modifies this`aliases
      ensures aliases == Retired(old(aliases), events, setting.redirectMs)
    {
      for i := 0 to |events|
        invariant aliases == Retired(old(aliases), events[..i], setting.redirectMs)
      {
        assert events[..i + 1][..i] == events[..i];
        aliases := RetiredBy(aliases, events[i], setting.redirectMs);
      }
      assert events[..|events|] == events;
    }

    /** What both commands end with: the aggregate's rows, its events, and the slugs they retire. */
    method Record(id: string, date: PerformanceDate, at: Instant)
      requires id in dates
      modifies this`dates, this`aliases, this`now
      ensures dates == old(dates)[id := DateValue(date.current.facts, date.publication, old(dates)[id].events + date.uncommitted)]
      ensures aliases == Retired(old(aliases), date.uncommitted, setting.redirectMs) && now == at
    {
      dates := dates[id := DateValue(date.current.facts, date.publication, dates[id].events + date.uncommitted)];
      RetireMoved(date.uncommitted);
      now := at;
    }

    /** `transitionIn`: loads, looks for a slug when there is none, moves, and records; or changes nothing. */
    method TransitionIn(id: string, command: Command, satisfied: set<string>, showRuntimeMin: int,
                        replayRefusal: Option<Refusal>, at: Instant)
      returns (reply: Reply)
      modifies this
      ensures (Value(), reply) ==
                Commanded(setting, old(Value()), Transition(id, command, satisfied, showRuntimeMin, replayRefusal, at))
    {
      if id !in dates {
        return NotFound;
      }
      var facts := dates[id].facts;
      var date := new PerformanceDate.Restore(setting.rules, facts, dates[id].publication);
      var freeSlug := None;
      if facts.slug.None? {
        var slug := Slugs.FreeDateSlug(ShowOf(setting, State(dates, aliases, now)), id,
                                       setting.wallOf(facts.venueId, facts.startsAt), at);
        freeSlug := Some(slug);
      }
      var context := PublicationContext(satisfied, freeSlug, showRuntimeMin, at);
      assert ActOf(setting, Value(), facts, Transition(id, command, satisfied, showRuntimeMin, replayRefusal, at)) ==
             Some(TransitionPublication(command, context));
      var done := date.TransitionPublication(command, context);
      if done.DidNot? {
        return Rejected(done.refusal);
      }
      if command.to.ReplayOnline? && replayRefusal.Some? {
        return Rejected(replayRefusal.value);
      }
      Record(id, date, at);
      reply := Done(true);
    }

    /** `declareIn`: looks for a slug at the new start when there is one, declares, and records; or changes nothing. */
    method DeclareIn(id: string, expectedVersion: int, outcome: DateOutcome, rescheduledTo: Option<Instant>,
                     message: Message, at: Instant)
      returns (reply: Reply)
      modifies this
      ensures (Value(), reply) ==
                Commanded(setting, old(Value()), Declare(id, expectedVersion, outcome, rescheduledTo, message, at))
    {
      if id !in dates {
        return NotFound;
      }
      var declaration := DeclarationOf(outcome, rescheduledTo);
      if declaration.None? {
        return Rejected(Defect("a postponement without rescheduledTo"));
      }
      var facts, movedTo := dates[id].facts, declaration.value.rescheduledTo;
      var date := new PerformanceDate.Restore(setting.rules, facts, dates[id].publication);
      var slugAtNewStart := None;
      if movedTo.Some? {
        var slug := Slugs.FreeDateSlug(ShowOf(setting, State(dates, aliases, now)), id,
                                       setting.wallOf(facts.venueId, movedTo.value), at);
        slugAtNewStart := Some(slug);
      }
      var context := OutcomeContext(slugAtNewStart, at);
      assert ActOf(setting, Value(), facts, Declare(id, expectedVersion, outcome, rescheduledTo, message, at)) ==
             Some(DeclareOutcome(expectedVersion, declaration.value, message, context));
      var done := date.DeclareOutcome(expectedVersion, declaration.value, message, context);
      if done.DidNot? {
        return Rejected(done.refusal);
      }
      Record(id, date, at);
      reply := Done(true);
    }
  }
}
