/** Applying one message and, when that fails, the copy that is republished in its place. */
module Dispatch {
  import opened Options
  import opened Decimal
  import opened Failure

  const ATTEMPT_HEADER := "arthome-attempt"
  const NOT_BEFORE_HEADER := "arthome-not-before"
  const ORIGIN_HEADER := "arthome-origin-topic"
  const ERROR_HEADER := "arthome-error"
  const DLQ_REASON_HEADER := "arthome-dlq-reason"
  const MESSAGE_ID_HEADER := "message-id"

  /** The names `dispatch` writes on a copy; every other header is foreign to it. */
  const OWN_HEADERS: set<string> :=
    {ATTEMPT_HEADER, NOT_BEFORE_HEADER, ORIGIN_HEADER, ERROR_HEADER, DLQ_REASON_HEADER}

  /** A header is null or undefined, a text, or an instant's ISO text kept as the instant it reads as. */
  datatype HeaderValue = Absent | Text(text: string) | Stamp(ms: int)

  type Headers = map<string, HeaderValue>

  datatype Message = Message(key: Option<string>, value: Option<string>, headers: Headers)

  datatype Payload = Payload(topic: string, message: Message)

  function RetryTopic(service: string): string { "arthome." + service + ".retry" }

  function DeadLetterTopic(service: string): string { "arthome." + service + ".dlq" }

  /** No two services share either topic, and no retry topic is a dead-letter one. */
  lemma TopicsAreTheServicesOwn(service: string, other: string)
    ensures RetryTopic(service) != DeadLetterTopic(other)
    ensures RetryTopic(service) == RetryTopic(other) ==> service == other
    ensures DeadLetterTopic(service) == DeadLetterTopic(other) ==> service == other
  {
    var prefix, retry, dead := |"arthome."|, RetryTopic(service), DeadLetterTopic(service);
    assert retry[|retry| - 1] == 'y' && DeadLetterTopic(other)[|DeadLetterTopic(other)| - 1] == 'q';
    assert retry[prefix..|retry| - |".retry"|] == service && dead[prefix..|dead| - |".dlq"|] == service;
    assert RetryTopic(other)[prefix..|RetryTopic(other)| - |".retry"|] == other;
    assert DeadLetterTopic(other)[prefix..|DeadLetterTopic(other)| - |".dlq"|] == other;
  }

  function Raw(headers: Headers, name: string): HeaderValue {
    if name in headers then headers[name] else Absent
  }

  /** `header`: the four characters `null` are Debezium's spelling of an absent value. */
  function Header(headers: Headers, name: string): Option<string> {
    match Raw(headers, name)
    case Text(text) => if text == "null" then None else Some(text)
    case _ => None
  }

  /** The instant of the not-before header, when there is one that reads as an instant. */
  function NotBefore(headers: Headers): Option<int> {
    match Raw(headers, NOT_BEFORE_HEADER)
    case Stamp(ms) => Some(ms)
    case _ => None
  }

  function AttemptsSoFar(headers: Headers): nat {
    match Raw(headers, ATTEMPT_HEADER)
    case Text(text) =>
      (match ParseInt(text)
       case Some(n) => if n >= 0 then n else 0
       case None => 0)
    case _ => 0
  }

  /** The topic whose handler applies the message: its first publication's, or the one it came on. */
  function HandlingTopic(payload: Payload): string {
    match Header(payload.message.headers, ORIGIN_HEADER)
    case Some(origin) => origin
    case None => payload.topic
  }

  function MessageId(message: Message): Option<string> {
    Header(message.headers, MESSAGE_ID_HEADER)
  }

  function Forwarded(headers: Headers): Headers {
    map name | name in headers && !headers[name].Absent? :: headers[name]
  }

  /** `forwarded`: one header at a time, the null and undefined ones dropped. */
  method ForwardHeaders(headers: Headers) returns (kept: Headers)
    ensures kept == Forwarded(headers)
  {
    kept := map[];
    var left := headers.Keys;
    while left != {}
      invariant left <= headers.Keys
      invariant kept == map name | name in headers && name !in left && !headers[name].Absent? :: headers[name]
      decreases |left|
    {
      var name :| name in left;
      left := left - {name};
      if !headers[name].Absent? {
        kept := kept[name := headers[name]];
      }
    }
  }

  /** The first publication's topic, kept on every later copy. */
  function OriginOf(payload: Payload): string {
    match Raw(payload.message.headers, ORIGIN_HEADER)
    case Text(text) => text
    case _ => payload.topic
  }

  function ReasonText(reason: Reason): string {
    match reason
    case PermanentFailure => "permanent"
    case Exhausted => "exhausted"
  }

  /** The headers of the copy published for a failure. */
  function CopyHeaders(payload: Payload, error: Error, route: FailureRoute): Headers {
    var headers := Forwarded(payload.message.headers)
                     [ORIGIN_HEADER := Text(OriginOf(payload))]
                     [ERROR_HEADER := Text(error.text)];
    match route
    case Retry(attempt, notBefore) =>
      headers[ATTEMPT_HEADER := Text(Spelled(attempt))][NOT_BEFORE_HEADER := Stamp(notBefore)]
    case DeadLetter(reason) =>
      headers[ATTEMPT_HEADER := Text(Spelled(AttemptsSoFar(payload.message.headers)))]
             [DLQ_REASON_HEADER := Text(ReasonText(reason))]
  }

  function CopyFor(payload: Payload, error: Error, route: FailureRoute): Message {
    payload.message.(headers := CopyHeaders(payload, error, route))
  }

  /** The same key, value and foreign headers: what a consumer deduplicates and decodes by. */
  ghost predicate SameContent(a: Message, b: Message) {
    && a.key == b.key
    && a.value == b.value
    && (forall name :: name !in OWN_HEADERS ==> Raw(a.headers, name) == Raw(b.headers, name))
  }

  /** A message as its producer wrote it, before any copy of it. */
  ghost predicate Unmarked(message: Message) {
    forall name :: name in OWN_HEADERS ==> name !in message.headers
  }

  lemma CopyKeepsForeignHeaders(payload: Payload, error: Error, route: FailureRoute)
    ensures SameContent(CopyFor(payload, error, route), payload.message)
    ensures MessageId(CopyFor(payload, error, route)) == MessageId(payload.message)
  {
  }

  lemma CopyMarks(payload: Payload, error: Error, route: FailureRoute)
    ensures var headers := CopyHeaders(payload, error, route);
      && Raw(headers, ORIGIN_HEADER) == Text(OriginOf(payload))
      && Raw(headers, ATTEMPT_HEADER) ==
           Text(Spelled(if route.Retry? then route.attempt else AttemptsSoFar(payload.message.headers)))
      && (route.Retry? ==> Raw(headers, NOT_BEFORE_HEADER) == Stamp(route.notBefore))
      && (route.DeadLetter? ==> Raw(headers, DLQ_REASON_HEADER) == Text(ReasonText(route.reason)))
  {
  }

  /** What every republished copy keeps, and how far on the attempt counter it decodes to. */
  lemma CopyKeepsTheMessage(payload: Payload, error: Error, now: int, u: real)
    requires Draw(u)
    ensures var attempts := AttemptsSoFar(payload.message.headers);
      var route := RouteFailure(error, attempts, now, u);
      var copy := CopyFor(payload, error, route);
      && SameContent(copy, payload.message)
      && MessageId(copy) == MessageId(payload.message)
      && Raw(copy.headers, ORIGIN_HEADER) == Text(OriginOf(payload))
      && AttemptsSoFar(copy.headers) == (if route.Retry? then attempts + 1 else attempts)
      && (route.Retry? ==> NotBefore(copy.headers) == Some(route.notBefore))
      && (route.DeadLetter? ==> Raw(copy.headers, DLQ_REASON_HEADER) == Text(ReasonText(route.reason)))
  {
    var attempts := AttemptsSoFar(payload.message.headers);
    var route := RouteFailure(error, attempts, now, u);
    ParseIntOfSpelled(if route.Retry? then attempts + 1 else attempts);
    CopyKeepsForeignHeaders(payload, error, route);
    CopyMarks(payload, error, route);
  }

  // ---------- what the counter reads as ----------

  ghost predicate Counts(headers: Headers, n: nat) { AttemptsSoFar(headers) == n }

  /** No counter, a negative one or one that is no number counts as none; a number is read up to its last digit. */
  lemma CountersAreReadSafely(headers: Headers, n: nat, rest: string)
    ensures Raw(headers, ATTEMPT_HEADER) == Absent ==> Counts(headers, 0)
    ensures Counts(headers[ATTEMPT_HEADER := Text("-" + Spelled(n))], 0)
    ensures rest == [] || !(IsDigit(rest[0]) || IsSpace(rest[0]) || rest[0] == '-' || rest[0] == '+') ==>
              Counts(headers[ATTEMPT_HEADER := Text(rest)], 0)
    ensures rest == [] || !IsDigit(rest[0]) ==> Counts(headers[ATTEMPT_HEADER := Text(Spelled(n) + rest)], n)
  {
    ParseIntOfNegated(n);
    if rest == [] || !IsDigit(rest[0]) {
      ParseIntOfSpelledThen(n, rest);
    }
  }

  // ---------- dispatch itself ----------

  datatype Outcome = Applied | Duplicate | Ignored | Superseded

  /** What the handler did: it answered, or it threw. */
  datatype HandlerResult = Answered(outcome: Outcome) | Threw(error: Error)

  datatype Disposition = Handled(outcome: Outcome) | Retried | DeadLettered | Escaped

  datatype Published = Published(topic: string, message: Message)

  /** The Kafka producer: a send appends, or fails having appended or not. */
  class Producer {
    var log: seq<Published>

    constructor ()
      ensures log == []
    {
      log := [];
    }

    method Send(topic: string, message: Message) returns (acknowledged: bool)
      modifies this
      ensures acknowledged ==> log == old(log) + [Published(topic, message)]
      ensures log == old(log) || log == old(log) + [Published(topic, message)]
    {
      var reached: bool := *;
      acknowledged := false;
      if reached {
        log := log + [Published(topic, message)];
        acknowledged := *;
      }
    }
  }

  /** Where a failure is published: the retry topic or the dead-letter one. */
  function PublicationFor(service: string, payload: Payload, error: Error, now: int, u: real): Published
    requires Draw(u)
  {
    var route := RouteFailure(error, AttemptsSoFar(payload.message.headers), now, u);
    Published(if route.Retry? then RetryTopic(service) else DeadLetterTopic(service),
              CopyFor(payload, error, route))
  }

  /** The failure comes back: it is transient, and there are attempts left. */
  predicate ComesBack(error: Error, payload: Payload) {
    error.Transient? && AttemptsSoFar(payload.message.headers) < |RETRY_DELAYS_MS|
  }

  /** The same message, from the topic it was first published on, telling the error, and no header null. */
  ghost predicate TellsItsFailure(copy: Message, payload: Payload, error: Error) {
    && SameContent(copy, payload.message)
    && Raw(copy.headers, ERROR_HEADER) == Text(error.text)
    && (forall name :: name in copy.headers ==> !copy.headers[name].Absent?)
    && (match Raw(payload.message.headers, ORIGIN_HEADER)
        case Text(origin) => Raw(copy.headers, ORIGIN_HEADER) == Text(origin)
        case _ => Raw(copy.headers, ORIGIN_HEADER) == Text(payload.topic))
  }

  /**
   * A copy that comes back is on the service's retry topic, an attempt on and due in the window of its
   * delay; any other on the dead-letter topic, its attempts as they were and the reason said.
   */
  ghost predicate Routed(copy: Published, service: string, payload: Payload, error: Error, now: int) {
    var headers, attempts := copy.message.headers, AttemptsSoFar(payload.message.headers);
    if ComesBack(error, payload) then
      var delay := RETRY_DELAYS_MS[attempts];
      && copy.topic == RetryTopic(service)
      && AttemptsSoFar(headers) == attempts + 1
      && NotBefore(headers).Some?
      && now + delay <= NotBefore(headers).value && 5 * (NotBefore(headers).value - now) <= 6 * delay
    else
      && copy.topic == DeadLetterTopic(service)
      && AttemptsSoFar(headers) == attempts
      && Raw(headers, DLQ_REASON_HEADER) == Text(if error.Permanent? then "permanent" else "exhausted")
  }

  ghost predicate InItsPlace(copy: Published, service: string, payload: Payload, error: Error, now: int) {
    TellsItsFailure(copy.message, payload, error) && Routed(copy, service, payload, error, now)
  }

  lemma CopyTellsItsFailure(payload: Payload, error: Error, route: FailureRoute)
    ensures TellsItsFailure(CopyFor(payload, error, route), payload, error)
  {
    CopyKeepsForeignHeaders(payload, error, route);
  }

  lemma PublicationIsInItsPlace(service: string, payload: Payload, error: Error, now: int, u: real)
    requires Draw(u)
    ensures InItsPlace(PublicationFor(service, payload, error, now, u), service, payload, error, now)
  {
    CopyTellsItsFailure(payload, error, RouteFailure(error, AttemptsSoFar(payload.message.headers), now, u));
    CopyKeepsTheMessage(payload, error, now, u);
  }

  /**
   * `dispatch`: a normal return means the handler answered or the broker acknowledged one copy; an
   * unacknowledged send escapes, and the log then has that copy or has not.
   */
  method DispatchMessage(result: HandlerResult, producer: Producer, service: string,
                         payload: Payload, now: int, u: real) returns (disposition: Disposition)
    requires Draw(u)
    modifies producer
    ensures result.Answered? ==> disposition == Handled(result.outcome) && producer.log == old(producer.log)
    ensures result.Threw? ==> !disposition.Handled?
    ensures result.Threw? && !disposition.Escaped? ==>
              producer.log == old(producer.log) + [PublicationFor(service, payload, result.error, now, u)]
    ensures result.Threw? ==>
              || (disposition.Escaped? && producer.log == old(producer.log))
              || (&& |producer.log| == |old(producer.log)| + 1 && old(producer.log) <= producer.log
                  && InItsPlace(producer.log[|old(producer.log)|], service, payload, result.error, now))
    ensures disposition.Retried? ==> result.Threw? && ComesBack(result.error, payload)
    ensures disposition.DeadLettered? ==> result.Threw? && !ComesBack(result.error, payload)
  {
    if result.Threw? {
      PublicationIsInItsPlace(service, payload, result.error, now, u);
    }
    match result
    case Answered(outcome) =>
      disposition := Handled(outcome);
    case Threw(error) =>
      var attempts := AttemptsSoFar(payload.message.headers);
      var route := RouteFailure(error, attempts, now, u);
      var headers := ForwardHeaders(payload.message.headers);
      var origin := if ORIGIN_HEADER in headers && headers[ORIGIN_HEADER].Text?
                    then headers[ORIGIN_HEADER].text else payload.topic;
      headers := headers[ORIGIN_HEADER := Text(origin)];
      headers := headers[ERROR_HEADER := Text(error.text)];
      var acknowledged;
      if route.Retry? {
        headers := headers[ATTEMPT_HEADER := Text(Spelled(route.attempt))];
        headers := headers[NOT_BEFORE_HEADER := Stamp(route.notBefore)];
        acknowledged := producer.Send(RetryTopic(service), payload.message.(headers := headers));
        disposition := if acknowledged then Retried else Escaped;
      } else {
        headers := headers[ATTEMPT_HEADER := Text(Spelled(attempts))];
        headers := headers[DLQ_REASON_HEADER := Text(ReasonText(route.reason))];
        acknowledged := producer.Send(DeadLetterTopic(service), payload.message.(headers := headers));
        disposition := if acknowledged then DeadLettered else Escaped;
      }
  }
}
