/** What the run's messages, reordered and repeated as a retry topic does, leave of a date. */
module RunFacts {
  import opened Options
  import opened CoreRules
  import opened Publication
  import opened PerformanceDates
  import Failure

  datatype Run = OnAir | RunOver(endedAt: Instant)

  datatype RunMessage = RunMessage(id: string, run: Run)

  /** A message, and the clock its handler read. */
  datatype Delivery = Delivery(message: RunMessage, now: Instant)

  datatype Reply = Applied | Duplicate | Ignored | Threw(refusal: Refusal)

  /** The date, the ledger its handler claims in, and the replays it opened. */
  datatype State = State(date: DateValue, ledger: set<string>, replays: seq<Instant>)

  function WindowHours(facts: DateFacts): int {
    if facts.replayWindowHours.Some? then facts.replayWindowHours.value else 0
  }

  predicate PromisesReplay(rules: Rules, facts: DateFacts) {
    rules.createsReplay(facts.replayPolicy, WindowHours(facts), facts.outcome)
  }

  function RunAnswerTo(rules: Rules, date: DateValue, delivery: Delivery): Answer {
    if delivery.message.run.OnAir? then RunStartedAnswer(rules, date, delivery.now)
    else RunEndedAnswer(rules, date, delivery.now)
  }

  /** One transaction of `LearnRunFact`: the claim, the move and the replay commit together or not at all. */
  function Executed(rules: Rules, s: State, delivery: Delivery): (State, Reply) {
    var message := delivery.message;
    if message.id in s.ledger then (s, Duplicate)
    else
      var claimed := s.(ledger := s.ledger + {message.id});
      match RunAnswerTo(rules, s.date, delivery)
      case RefusedWith(refusal) => (s, Threw(refusal))
      case Unmoved => (claimed, Ignored)
      case Moved(date) =>
        var replay := if message.run.RunOver? && PromisesReplay(rules, date.facts) then [message.run.endedAt] else [];
        (claimed.(date := date, replays := s.replays + replay), Applied)
  }

  function After(rules: Rules, s: State, deliveries: seq<Delivery>): State {
    if deliveries == [] then s
    else Executed(rules, After(rules, s, deliveries[..|deliveries| - 1]), deliveries[|deliveries| - 1]).0
  }

  function ReplyTo(rules: Rules, s: State, deliveries: seq<Delivery>, i: nat): Reply
    requires i < |deliveries|
  {
    Executed(rules, After(rules, s, deliveries[..i]), deliveries[i]).1
  }

  // ---------- the handler ----------

  /** The date's rows, the ledger, the replays and the outbox, all written by one transaction. */
  class LearnRunFactHandler {
    const rules: Rules
    var facts: DateFacts
    var publication: PublicationSnapshot
    var ledger: set<string>
    var replays: seq<Instant>
    var outbox: seq<Event>

    ghost function Committed(): State
      reads this
    {
      State(DateValue(facts, publication, outbox), ledger, replays)
    }

    constructor (rules: Rules, date: DateValue)
      ensures this.rules == rules && Committed() == State(date, {}, [])
    {
      this.rules := rules;
      facts, publication, outbox := date.facts, date.publication, date.events;
      ledger, replays := {}, [];
    }

    /** `execute`: claims, moves the loaded aggregate, opens the replay, and commits it all or nothing. */
    method Execute(delivery: Delivery) returns (reply: Reply)
      modifies this
      ensures (Committed(), reply) == Executed(rules, old(Committed()), delivery)
    {
      ghost var answer := RunAnswerTo(rules, Committed().date, delivery);
      var message := delivery.message;
      if message.id in ledger {
        return Duplicate;
      }
      var date := new PerformanceDate.Restore(rules, facts, publication);
      var done;
      if message.run.OnAir? {
        done := date.LearnRunStarted(delivery.now);
      } else {
        done := date.LearnRunEnded(delivery.now);
      }
      assert done.DidNot? <==> answer.RefusedWith?;
      if done.DidNot? {
        return Threw(done.refusal);
      }
      ledger := ledger + {message.id};
      if !done.moved {
        return Ignored;
      }
      facts, publication := date.current.facts, date.publication;
      var replay := if message.run.RunOver? && PromisesReplay(rules, facts) then [message.run.endedAt] else [];
      replays := replays + replay;
      outbox := outbox + date.uncommitted;
      reply := Applied;
      assert outbox == answer.date.events;
    }
  }

  // ---------- what is retried ----------

  /** `refusedAsPermanent`: what the delivery protocol is thrown for a refusal. */
  function ThrownAs(refusal: Refusal): Failure.Error {
    match refusal
    case StateConflict(_, _) => Failure.Transient("state conflict")
    case EndedBeforeStarted(_) => Failure.Transient("ended before started")
    case Defect(text) => Failure.Transient(text)
    case _ => Failure.Permanent("refused")
  }

  /** What core refuses is refused for good, but for a version conflict; what is not core's is tried again. */
  lemma RefusalsAreRouted(refusal: Refusal, attempts: nat, now: int, u: real)
    requires Failure.Draw(u)
    ensures var route := Failure.RouteFailure(ThrownAs(refusal), attempts, now, u);
      && (route == Failure.DeadLetter(Failure.PermanentFailure) <==>
            refusal.TransitionForbidden? || refusal.ChecklistIncomplete? || refusal.OtherRefusal?)
      && (route.Retry? <==>
            (refusal.StateConflict? || refusal.EndedBeforeStarted? || refusal.Defect?) && attempts < |Failure.RETRY_DELAYS_MS|)
  {
  }

  /**
   * Of the throws a run message can meet: an end during the technical check is tried again until the
   * attempts run out, and any other, on a date the run's move is not open to, is dead-lettered at once.
   */
  lemma ThrowsAreRouted(rules: Rules, s: State, delivery: Delivery, attempts: nat, u: real)
    requires Failure.Draw(u) && Executed(rules, s, delivery).1.Threw?
    ensures var route := Failure.RouteFailure(ThrownAs(Executed(rules, s, delivery).1.refusal), attempts, delivery.now, u);
      if delivery.message.run.RunOver? && s.date.publication.state.Technical? then
        if attempts < |Failure.RETRY_DELAYS_MS| then route.Retry? else route == Failure.DeadLetter(Failure.Exhausted)
      else
        && route == Failure.DeadLetter(Failure.PermanentFailure)
        && !rules.eventDriven(s.date.publication.state, if delivery.message.run.OnAir? then Live else Ended)
  {
  }

  /** What each reply says happened: nothing, the claim alone, or the claim with the date one version on. */
  lemma RepliesTellWhatHappened(rules: Rules, s: State, delivery: Delivery)
    ensures var (t, reply) := Executed(rules, s, delivery);
      && (reply == Duplicate <==> delivery.message.id in s.ledger)
      && (reply == Duplicate || reply.Threw? <==> t == s)
      && (reply == Ignored <==> delivery.message.id !in s.ledger && t == s.(ledger := s.ledger + {delivery.message.id}))
      && (reply == Applied <==> t.date.publication.version == s.date.publication.version + 1)
      && (reply == Applied ==> t.ledger == s.ledger + {delivery.message.id} && t.date.facts == s.date.facts)
      && (reply == Applied && delivery.message.run.OnAir? ==> t.replays == s.replays)
      && (reply == Applied && delivery.message.run.RunOver? ==>
            var hours := match s.date.facts.replayWindowHours case Some(hours) => hours case None => 0;
            t.replays == s.replays +
              if rules.createsReplay(s.date.facts.replayPolicy, hours, s.date.facts.outcome) then [delivery.message.run.endedAt] else [])
  {
  }

  /** The deliveries of a run that were answered, those thrown back left out. */
  function AnsweredOf(rules: Rules, s: State, deliveries: seq<Delivery>): seq<Delivery> {
    if deliveries == [] then []
    else
      var n := |deliveries| - 1;
      var before := AnsweredOf(rules, s, deliveries[..n]);
      if ReplyTo(rules, s, deliveries, n).Threw? then before else before + [deliveries[n]]
  }

  /**
   * Retries leave no trace: over every run, the date, its events, the ledger and the replays are what
   * the answered deliveries alone would have left, each answered as it was.
   */
  lemma {:induction false} ThrowsLeaveNoTrace(rules: Rules, s: State, deliveries: seq<Delivery>)
    ensures var answered := AnsweredOf(rules, s, deliveries);
      && After(rules, s, answered) == After(rules, s, deliveries)
      && (forall i :: 0 <= i < |answered| ==> !ReplyTo(rules, s, answered, i).Threw?)
  {
    if deliveries != [] {
      var n := |deliveries| - 1;
      var before, answered := AnsweredOf(rules, s, deliveries[..n]), AnsweredOf(rules, s, deliveries);
      ThrowsLeaveNoTrace(rules, s, deliveries[..n]);
      if answered != before {
        assert answered[..|before|] == before;
        forall i | 0 <= i < |answered| ensures !ReplyTo(rules, s, answered, i).Threw? {
          if i < |before| {
            assert answered[..i] == before[..i];
            assert !ReplyTo(rules, s, before, i).Threw?;
          } else {
            assert answered[..i] == before && answered[i] == deliveries[n];
          }
        }
      }
    }
  }

  // ---------- convergence ----------

  /** The event-driven rows of core's table the run needs. */
  ghost predicate RunTable(rules: Rules) {
    rules.eventDriven(Technical, Live) && rules.eventDriven(Live, Ended)
  }

  predicate UnderTechnicalCheck(s: State) { s.date.publication.state == Technical }

  /** One id, one message; and none the ledger already holds. */
  ghost predicate Fresh(s: State, deliveries: seq<Delivery>) {
    && (forall i :: 0 <= i < |deliveries| ==> deliveries[i].message.id !in s.ledger)
    && (forall i, j | 0 <= i < |deliveries| && 0 <= j < |deliveries| ::
          deliveries[i].message.id == deliveries[j].message.id ==> deliveries[i].message == deliveries[j].message)
  }

  /** Some start, or some end, was answered rather than thrown back. */
  ghost predicate Answered(rules: Rules, s: State, deliveries: seq<Delivery>, start: bool) {
    exists i :: 0 <= i < |deliveries| && deliveries[i].message.run.OnAir? == start &&
                !ReplyTo(rules, s, deliveries, i).Threw?
  }

  /** How far the run has come: nothing, a start, or an end after a start. */
  ghost function Progress(rules: Rules, s: State, deliveries: seq<Delivery>): nat {
    if Answered(rules, s, deliveries, false) then 2 else if Answered(rules, s, deliveries, true) then 1 else 0
  }

  function StateAt(progress: nat): PublicationState {
    if progress == 0 then Technical else if progress == 1 then Live else Ended
  }

  ghost predicate Claims(rules: Rules, s: State, deliveries: seq<Delivery>) {
    forall id :: id in After(rules, s, deliveries).ledger && id !in s.ledger ==>
      exists i :: 0 <= i < |deliveries| && deliveries[i].message.id == id && !ReplyTo(rules, s, deliveries, i).Threw?
  }

  /** The end a run's replay is counted from: the first that was answered rather than thrown back. */
  function EndOf(rules: Rules, s: State, deliveries: seq<Delivery>): Option<Instant> {
    if deliveries == [] then None
    else
      var n := |deliveries| - 1;
      var before, last := EndOf(rules, s, deliveries[..n]), deliveries[n].message.run;
      if before.None? && last.RunOver? && !ReplyTo(rules, s, deliveries, n).Threw? then Some(last.endedAt) else before
  }

  /** The replay a date opens for a run that ended: one, from its end, when it promised one. */
  function Opened(rules: Rules, facts: DateFacts, end: Option<Instant>): seq<Instant> {
    if end.Some? && PromisesReplay(rules, facts) then [end.value] else []
  }

  /** The date as far on as `progress` says, and no further. */
  ghost predicate Stands(rules: Rules, s: State, now: State, progress: nat, end: Option<Instant>) {
    && (end.Some? <==> progress == 2)
    && now.date.publication.state == StateAt(progress)
    && now.date.publication.version == s.date.publication.version + progress
    && now.date.facts == s.date.facts
    && now.replays == s.replays + Opened(rules, s.date.facts, end)
  }

  /** The date is where the answered messages put it, whatever their order and number. */
  ghost predicate Converging(rules: Rules, s: State, deliveries: seq<Delivery>) {
    && (Answered(rules, s, deliveries, false) ==> Answered(rules, s, deliveries, true))
    && Stands(rules, s, After(rules, s, deliveries), Progress(rules, s, deliveries), EndOf(rules, s, deliveries))
    && Claims(rules, s, deliveries)
  }

  /** How far a message not claimed before takes the date. */
  function Further(progress: nat, run: Run): nat {
    if run.OnAir? then (if progress == 0 then 1 else progress) else (if progress == 0 then 0 else 2)
  }

  lemma ExecutedStands(rules: Rules, s: State, now: State, progress: nat, end: Option<Instant>, delivery: Delivery)
    requires RunTable(rules) && progress <= 2 && Stands(rules, s, now, progress, end) && delivery.message.id !in now.ledger
    ensures var (next, reply) := Executed(rules, now, delivery);
      var run := delivery.message.run;
      && Stands(rules, s, next, Further(progress, run), if progress == 1 && run.RunOver? then Some(run.endedAt) else end)
      && (reply.Threw? <==> run.RunOver? && progress == 0)
      && (reply.Threw? ==> reply.refusal == EndedBeforeStarted(s.date.facts.id))
      && (reply == Applied <==> Further(progress, run) == progress + 1)
  {
    var before := Opened(rules, s.date.facts, end);
    assert s.replays + before + [] == s.replays + before;
    assert end.None? ==> s.replays + before == s.replays;
  }

  lemma PrefixReply(rules: Rules, s: State, deliveries: seq<Delivery>, i: nat, n: nat)
    requires i < n <= |deliveries|
    ensures ReplyTo(rules, s, deliveries[..n], i) == ReplyTo(rules, s, deliveries, i)
  {
    assert deliveries[..n][..i] == deliveries[..i];
  }

  /** One more delivery: what was answered stays answered, and it may answer one more. */
  lemma AnsweredOneMore(rules: Rules, s: State, deliveries: seq<Delivery>, start: bool)
    requires deliveries != []
    ensures var n := |deliveries| - 1;
      Answered(rules, s, deliveries, start) <==>
        || Answered(rules, s, deliveries[..n], start)
        || (deliveries[n].message.run.OnAir? == start && !ReplyTo(rules, s, deliveries, n).Threw?)
  {
    var n := |deliveries| - 1;
    if Answered(rules, s, deliveries[..n], start) {
      var i :| 0 <= i < n && deliveries[..n][i].message.run.OnAir? == start && !ReplyTo(rules, s, deliveries[..n], i).Threw?;
      PrefixReply(rules, s, deliveries, i, n);
      assert deliveries[i].message.run.OnAir? == start;
    }
    if Answered(rules, s, deliveries, start) {
      var i :| 0 <= i < |deliveries| && deliveries[i].message.run.OnAir? == start && !ReplyTo(rules, s, deliveries, i).Threw?;
      if i < n {
        PrefixReply(rules, s, deliveries, i, n);
        assert deliveries[..n][i].message.run.OnAir? == start;
      }
    }
  }

  /** A claimed message was answered before, by an earlier delivery of it. */
  lemma ClaimedWasAnswered(rules: Rules, s: State, before: seq<Delivery>, message: RunMessage)
    requires Claims(rules, s, before) && message.id in After(rules, s, before).ledger && message.id !in s.ledger
    requires forall i :: 0 <= i < |before| && before[i].message.id == message.id ==> before[i].message == message
    ensures Answered(rules, s, before, message.run.OnAir?)
  {
    var i :| 0 <= i < |before| && before[i].message.id == message.id && !ReplyTo(rules, s, before, i).Threw?;
    assert before[i].message == message;
  }

  lemma ClaimsOneMore(rules: Rules, s: State, deliveries: seq<Delivery>)
    requires deliveries != [] && Claims(rules, s, deliveries[..|deliveries| - 1])
    ensures Claims(rules, s, deliveries)
  {
    var n := |deliveries| - 1;
    var before := deliveries[..n];
    forall id | id in After(rules, s, deliveries).ledger && id !in s.ledger
      ensures exists i :: 0 <= i < |deliveries| && deliveries[i].message.id == id && !ReplyTo(rules, s, deliveries, i).Threw?
    {
      if id in After(rules, s, before).ledger {
        var i :| 0 <= i < n && before[i].message.id == id && !ReplyTo(rules, s, before, i).Threw?;
        PrefixReply(rules, s, deliveries, i, n);
        assert deliveries[i].message.id == id;
      } else {
        assert deliveries[n].message.id == id && !ReplyTo(rules, s, deliveries, n).Threw?;
      }
    }
  }

  /** One more delivery of a message claimed before changes nothing, and its kind was answered already. */
  lemma ClaimedConverges(rules: Rules, s: State, deliveries: seq<Delivery>)
    requires deliveries != [] && Fresh(s, deliveries) && Converging(rules, s, deliveries[..|deliveries| - 1])
    requires deliveries[|deliveries| - 1].message.id in After(rules, s, deliveries[..|deliveries| - 1]).ledger
    ensures Converging(rules, s, deliveries)
  {
    var n := |deliveries| - 1;
    ClaimsOneMore(rules, s, deliveries);
    AnsweredOneMore(rules, s, deliveries, true);
    AnsweredOneMore(rules, s, deliveries, false);
    ClaimedWasAnswered(rules, s, deliveries[..n], deliveries[n].message);
  }

  /** One not claimed before takes the date as far as its kind can. */
  lemma UnclaimedConverges(rules: Rules, s: State, deliveries: seq<Delivery>)
    requires deliveries != [] && RunTable(rules) && Converging(rules, s, deliveries[..|deliveries| - 1])
    requires deliveries[|deliveries| - 1].message.id !in After(rules, s, deliveries[..|deliveries| - 1]).ledger
    ensures Converging(rules, s, deliveries)
  {
    var n := |deliveries| - 1;
    var before := deliveries[..n];
    ClaimsOneMore(rules, s, deliveries);
    AnsweredOneMore(rules, s, deliveries, true);
    AnsweredOneMore(rules, s, deliveries, false);
    ExecutedStands(rules, s, After(rules, s, before), Progress(rules, s, before), EndOf(rules, s, before), deliveries[n]);
  }

  lemma NothingDeliveredYet(rules: Rules, s: State)
    requires UnderTechnicalCheck(s)
    ensures Converging(rules, s, [])
  {
    assert s.replays + [] == s.replays;
  }

  lemma FreshBefore(s: State, deliveries: seq<Delivery>, n: nat)
    requires Fresh(s, deliveries) && n <= |deliveries|
    ensures Fresh(s, deliveries[..n])
  {
  }

  lemma {:induction false} EveryOrderConverges(rules: Rules, s: State, deliveries: seq<Delivery>)
    requires RunTable(rules) && UnderTechnicalCheck(s) && Fresh(s, deliveries)
    ensures Converging(rules, s, deliveries)
  {
    if deliveries == [] {
      NothingDeliveredYet(rules, s);
    } else {
      var n := |deliveries| - 1;
      FreshBefore(s, deliveries, n);
      EveryOrderConverges(rules, s, deliveries[..n]);
      if deliveries[n].message.id in After(rules, s, deliveries[..n]).ledger {
        ClaimedConverges(rules, s, deliveries);
      } else {
        UnclaimedConverges(rules, s, deliveries);
      }
    }
  }

  /** The end counted from is that of an answered delivery, and every end before it was thrown back. */
  lemma {:induction false} TheFirstAnsweredEnd(rules: Rules, s: State, deliveries: seq<Delivery>) returns (i: nat)
    requires EndOf(rules, s, deliveries).Some?
    ensures i < |deliveries| && deliveries[i].message.run == RunOver(EndOf(rules, s, deliveries).value)
    ensures !ReplyTo(rules, s, deliveries, i).Threw?
    ensures forall j :: 0 <= j < i && deliveries[j].message.run.RunOver? ==> ReplyTo(rules, s, deliveries, j).Threw?
  {
    var n := |deliveries| - 1;
    var before := deliveries[..n];
    if EndOf(rules, s, before).Some? {
      i := TheFirstAnsweredEnd(rules, s, before);
      PrefixReply(rules, s, deliveries, i, n);
    } else {
      i := n;
    }
    forall j | 0 <= j < i && deliveries[j].message.run.RunOver? ensures ReplyTo(rules, s, deliveries, j).Threw? {
      PrefixReply(rules, s, deliveries, j, n);
      if i == n {
        NoAnsweredEndYet(rules, s, before, j);
      }
    }
  }

  lemma {:induction false} NoAnsweredEndYet(rules: Rules, s: State, deliveries: seq<Delivery>, j: nat)
    requires EndOf(rules, s, deliveries).None? && j < |deliveries| && deliveries[j].message.run.RunOver?
    ensures ReplyTo(rules, s, deliveries, j).Threw?
  {
    var n := |deliveries| - 1;
    if j < n {
      NoAnsweredEndYet(rules, s, deliveries[..n], j);
      PrefixReply(rules, s, deliveries, j, n);
    }
  }

  /**
   * From a technical check, any order, number and repetition of starts and ends, once one of each has
   * been answered rather than dead-lettered, leaves the date ended exactly two versions on, its facts
   * untouched, and its replay opened once when it promised one and never otherwise, from the end that
   * was answered first.
   */
  lemma RunFactsConverge(rules: Rules, s: State, deliveries: seq<Delivery>) returns (i: nat)
    requires RunTable(rules) && UnderTechnicalCheck(s) && Fresh(s, deliveries)
    requires Answered(rules, s, deliveries, true) && Answered(rules, s, deliveries, false)
    ensures i < |deliveries| && deliveries[i].message.run.RunOver? && !ReplyTo(rules, s, deliveries, i).Threw?
    ensures forall j :: 0 <= j < i && deliveries[j].message.run.RunOver? ==> ReplyTo(rules, s, deliveries, j).Threw?
    ensures var now := After(rules, s, deliveries);
      && now.date.publication.state == Ended
      && now.date.publication.version == s.date.publication.version + 2
      && now.date.facts == s.date.facts
      && now.replays == s.replays + if PromisesReplay(rules, s.date.facts) then [deliveries[i].message.run.endedAt] else []
  {
    EveryOrderConverges(rules, s, deliveries);
    i := TheFirstAnsweredEnd(rules, s, deliveries);
  }

  /**
   * On the way there nothing is refused for good: an end is thrown back exactly while no start has
   * been answered, and a start never is.
   */
  lemma OnlyAnEarlyEndIsThrownBack(rules: Rules, s: State, deliveries: seq<Delivery>, i: nat)
    requires RunTable(rules) && UnderTechnicalCheck(s) && Fresh(s, deliveries) && i < |deliveries|
    ensures var reply := ReplyTo(rules, s, deliveries, i);
      && (reply.Threw? ==> reply.refusal == EndedBeforeStarted(s.date.facts.id))
      && (reply.Threw? <==> deliveries[i].message.run.RunOver? && !Answered(rules, s, deliveries[..i], true))
  {
    var before, message := deliveries[..i], deliveries[i].message;
    FreshBefore(s, deliveries, i);
    EveryOrderConverges(rules, s, before);
    if message.id in After(rules, s, before).ledger {
      ClaimedWasAnswered(rules, s, before, message);
    } else {
      ExecutedStands(rules, s, After(rules, s, before), Progress(rules, s, before), EndOf(rules, s, before), deliveries[i]);
    }
  }
}
