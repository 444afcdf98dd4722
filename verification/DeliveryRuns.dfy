/**
 * A first delivery that fails and its copy taken up again, state by state: the run the exact
 * conditions of `DeliveryNoLoss` and `DeliveryChains` are shown on.
 */
module DeliveryRuns {
  import opened Options
  import opened Failure
  import opened Dispatch
  import opened Delivery

  function SourcePartition(topic: string): Partition { Partition(topic, 0) }

  function RetryPartition(c: Config): Partition { Partition(RetryTopic(c.service), 0) }

  function PlainMessage(): Message { Message(None, None, map[]) }

  /** When the copy is taken up: as soon as it is due, and its publication is past. */
  function TakenUpAt(start: int, took: nat): int { start + if took <= 5000 then 5000 else took }

  /**
   * The handler is called at `start` and throws `took` later; its copy is drawn no jitter, the offset
   * commits, and the retry consumer fetches the copy once it is due.
   */
  function FailingRun(c: Config, topic: string, start: int, took: nat): seq<Step> {
    var p, q := SourcePartition(topic), RetryPartition(c);
    [Produce(p, PlainMessage()), Fetch(p), CallHandler(Owner(p)), Tick(start + took), Throw(Owner(p), Transient("")),
     Republish(Owner(p), q, 0.0), Return(p), CommitOffset(p, 1), Tick(TakenUpAt(start, took)), Fetch(q)]
  }

  function FirstCall(topic: string, start: int): Call {
    var at := Position(SourcePartition(topic), 0);
    Call(at, at, 0, start)
  }

  /** The source partition's one record, delivered in the given phase. */
  function Delivering(topic: string, phase: Phase, calls: seq<Call>, now: int): State {
    var p, at := SourcePartition(topic), Position(SourcePartition(topic), 0);
    State(map[p := [Record(PlainMessage(), at, at, 0, 0, 0.0)]], [], map[], map[],
          map[p := Flight(0, phase)], map[], {}, [], {}, {}, calls, now)
  }

  function CopyRecord(topic: string, start: int, took: nat): Record {
    var at := Position(SourcePartition(topic), 0);
    Record(CopyFor(Payload(topic, PlainMessage()), Transient(""), Retry(1, start + 5000)), at, at, start, start + took, 0.0)
  }

  function Thrown(topic: string, start: int, took: nat): State {
    Delivering(topic, Failed(Transient(""), start, start + took), [FirstCall(topic, start)], start + took)
  }

  function Copied(c: Config, topic: string, start: int, took: nat): State {
    var s := Delivering(topic, Sent, [FirstCall(topic, start)], start + took);
    s.(logs := s.logs[RetryPartition(c) := [CopyRecord(topic, start, took)]])
  }

  function Returned(c: Config, topic: string, start: int, took: nat): State {
    var p := SourcePartition(topic);
    Copied(c, topic, start, took).(flights := map[], resolved := map[p := 1], committed := map[p := 1])
  }

  /** The copy due and fetched, in the given phase. */
  function TakenUp(c: Config, topic: string, start: int, took: nat, phase: Phase): State {
    Returned(c, topic, start, took).(flights := map[RetryPartition(c) := Flight(0, phase)], now := TakenUpAt(start, took))
  }

  /** One step along a run. */
  lemma Advance(c: Config, start: int, run: seq<Step>, k: nat, s: State) returns (t: State)
    requires k < |run| && After(c, start, run[..k]) == Some(s) && Enabled(c, s, run[k])
    ensures t == Take(c, s, run[k]) && After(c, start, run[..k + 1]) == Some(t)
  {
    t := Take(c, s, run[k]);
    AfterOneMore(c, start, run[..k], run[k]);
    assert run[..k] + [run[k]] == run[..k + 1];
  }

  ghost predicate Subscribed(c: Config, topic: string) { WellConfigured(c) && topic in c.sources }

  lemma TheMessageIsFetched(c: Config, topic: string, start: int, took: nat)
    requires Subscribed(c, topic)
    ensures After(c, start, FailingRun(c, topic, start, took)[..2]) == Some(Delivering(topic, Waiting, [], start))
  {
    var run, p := FailingRun(c, topic, start, took), SourcePartition(topic);
    var s1 := Advance(c, start, run, 0, Initial(start));
    var at := Position(p, 0);
    assert Log(s1, p) == [Record(PlainMessage(), at, at, 0, 0, 0.0)];
    var s2 := Advance(c, start, run, 1, s1);
    assert s2.logs == Delivering(topic, Waiting, [], start).logs;
    assert s2.flights == Delivering(topic, Waiting, [], start).flights;
  }

  lemma TheHandlerIsCalled(c: Config, topic: string, start: int, took: nat)
    requires Subscribed(c, topic)
    ensures After(c, start, FailingRun(c, topic, start, took)[..3]) ==
              Some(Delivering(topic, Running(start), [FirstCall(topic, start)], start))
  {
    var s2, who := Delivering(topic, Waiting, [], start), Owner(SourcePartition(topic));
    TheMessageIsFetched(c, topic, start, took);
    assert InHand(s2, who).message == PlainMessage();
    UnmarkedHasNoAttempt(PlainMessage());
    var s3 := Advance(c, start, FailingRun(c, topic, start, took), 2, s2);
    assert s3.calls == [FirstCall(topic, start)];
    assert s3.flights == Delivering(topic, Running(start), [], start).flights;
  }

  lemma TimeIsTaken(c: Config, topic: string, start: int, took: nat)
    requires Subscribed(c, topic)
    ensures After(c, start, FailingRun(c, topic, start, took)[..4]) ==
              Some(Delivering(topic, Running(start), [FirstCall(topic, start)], start + took))
  {
    TheHandlerIsCalled(c, topic, start, took);
    var s := Advance(c, start, FailingRun(c, topic, start, took), 3,
                     Delivering(topic, Running(start), [FirstCall(topic, start)], start));
  }

  lemma TheThrow(c: Config, topic: string, start: int, took: nat)
    ensures var s := Delivering(topic, Running(start), [FirstCall(topic, start)], start + took);
      var step := Throw(Owner(SourcePartition(topic)), Transient(""));
      Enabled(c, s, step) && Take(c, s, step) == Thrown(topic, start, took)
  {
    var s, p := Delivering(topic, Running(start), [FirstCall(topic, start)], start + took), SourcePartition(topic);
    assert Flying(s, p);
    assert s.flights[p := s.flights[p].(phase := Failed(Transient(""), start, start + took))] == Thrown(topic, start, took).flights;
  }

  lemma TheHandlerThrows(c: Config, topic: string, start: int, took: nat)
    requires Subscribed(c, topic)
    ensures After(c, start, FailingRun(c, topic, start, took)[..5]) == Some(Thrown(topic, start, took))
  {
    TimeIsTaken(c, topic, start, took);
    TheThrow(c, topic, start, took);
    var s := Advance(c, start, FailingRun(c, topic, start, took), 4,
                     Delivering(topic, Running(start), [FirstCall(topic, start)], start + took));
  }

  lemma TheCopyIs(topic: string, start: int, took: nat)
    ensures HasFailed(Thrown(topic, start, took), Owner(SourcePartition(topic)))
    ensures CopyOf(Thrown(topic, start, took), Owner(SourcePartition(topic)), 0.0) == CopyRecord(topic, start, took)
    ensures RouteOf(InHand(Thrown(topic, start, took), Owner(SourcePartition(topic))),
                    Failed(Transient(""), start, start + took), 0.0).Retry?
  {
    var s, who := Thrown(topic, start, took), Owner(SourcePartition(topic));
    assert InHand(s, who).message == PlainMessage();
    UnmarkedHasNoAttempt(PlainMessage());
    assert RouteOf(InHand(s, who), PhaseOf(s, who), 0.0) == Retry(1, start + 5000);
  }

  lemma ThePublication(c: Config, topic: string, start: int, took: nat)
    requires Subscribed(c, topic)
    ensures var s, step := Thrown(topic, start, took), Republish(Owner(SourcePartition(topic)), RetryPartition(c), 0.0);
      Enabled(c, s, step) && Take(c, s, step) == Copied(c, topic, start, took)
  {
    var s, q, t := Thrown(topic, start, took), RetryPartition(c), Copied(c, topic, start, took);
    TheCopyIs(topic, start, took);
    assert Log(s, q) + [CopyRecord(topic, start, took)] == [CopyRecord(topic, start, took)];
    assert Append(SetPhase(s, Owner(SourcePartition(topic)), Sent), q, CopyRecord(topic, start, took)).flights == t.flights;
  }

  lemma TheCopyIsPublished(c: Config, topic: string, start: int, took: nat)
    requires Subscribed(c, topic)
    ensures After(c, start, FailingRun(c, topic, start, took)[..6]) == Some(Copied(c, topic, start, took))
  {
    TheHandlerThrows(c, topic, start, took);
    ThePublication(c, topic, start, took);
    var s6 := Advance(c, start, FailingRun(c, topic, start, took), 5, Thrown(topic, start, took));
  }

  lemma TheReturn(c: Config, topic: string, start: int, took: nat)
    ensures var s, step := Copied(c, topic, start, took), Return(SourcePartition(topic));
      Enabled(c, s, step) && Take(c, s, step) == Returned(c, topic, start, took).(committed := map[])
  {
    var s := Copied(c, topic, start, took);
    assert Flying(s, SourcePartition(topic));
    assert s.flights - {SourcePartition(topic)} == map[];
  }

  lemma TheOffsetIsResolved(c: Config, topic: string, start: int, took: nat)
    requires Subscribed(c, topic)
    ensures After(c, start, FailingRun(c, topic, start, took)[..7]) ==
              Some(Returned(c, topic, start, took).(committed := map[]))
  {
    TheCopyIsPublished(c, topic, start, took);
    TheReturn(c, topic, start, took);
    var s7 := Advance(c, start, FailingRun(c, topic, start, took), 6, Copied(c, topic, start, took));
  }

  lemma TheOffsetIsCommitted(c: Config, topic: string, start: int, took: nat)
    requires Subscribed(c, topic)
    ensures After(c, start, FailingRun(c, topic, start, took)[..8]) == Some(Returned(c, topic, start, took))
  {
    TheOffsetIsResolved(c, topic, start, took);
    var s8 := Advance(c, start, FailingRun(c, topic, start, took), 7, Returned(c, topic, start, took).(committed := map[]));
  }

  lemma TheCopyIsDue(c: Config, topic: string, start: int, took: nat)
    requires Subscribed(c, topic)
    ensures After(c, start, FailingRun(c, topic, start, took)[..9]) ==
              Some(TakenUp(c, topic, start, took, Waiting).(flights := map[]))
  {
    TheOffsetIsCommitted(c, topic, start, took);
    var s9 := Advance(c, start, FailingRun(c, topic, start, took), 8, Returned(c, topic, start, took));
  }

  lemma TheCopyIsTakenUp(c: Config, topic: string, start: int, took: nat)
    requires Subscribed(c, topic)
    ensures After(c, start, FailingRun(c, topic, start, took)) == Some(TakenUp(c, topic, start, took, Waiting))
  {
    var run, s9 := FailingRun(c, topic, start, took), TakenUp(c, topic, start, took, Waiting).(flights := map[]);
    TheCopyIsDue(c, topic, start, took);
    assert Log(s9, RetryPartition(c)) == [CopyRecord(topic, start, took)];
    var s10 := Advance(c, start, run, 9, s9);
    assert run[..10] == run;
  }

  /** The copy in hand is due, is the first attempt after the source's, and has a handler unless its topic is `null`. */
  lemma TheCopyInHand(c: Config, topic: string, start: int, took: nat)
    requires Subscribed(c, topic)
    ensures var s := TakenUp(c, topic, start, took, Waiting);
      && MayStart(c, s, Owner(RetryPartition(c)), topic != "null")
      && InHand(s, Owner(RetryPartition(c))) == CopyRecord(topic, start, took)
      && Attempt(CopyRecord(topic, start, took)) == 1
  {
    var copy := CopyRecord(topic, start, took);
    CopyKeepsTheMessage(Payload(topic, PlainMessage()), Transient(""), start, 0.0);
    UnmarkedHasNoAttempt(PlainMessage());
    assert RouteFailure(Transient(""), 0, start, 0.0) == Retry(1, start + 5000);
    assert Raw(copy.message.headers, ORIGIN_HEADER) == Text(topic);
  }
}
