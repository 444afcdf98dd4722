/** Where a failed message goes and when: the retry schedule of `libs/messaging`. */
module Failure {
  import opened Options

  /** The wait before each of the three retries, in milliseconds and without its jitter. */
  const RETRY_DELAYS_MS: seq<nat> := [5000, 30000, 300000]

  const JITTER_RATIO: real := 0.2

  /** A `PermanentError`, or anything else a handler may throw. */
  datatype Error = Permanent(text: string) | Transient(text: string)

  datatype Reason = PermanentFailure | Exhausted

  datatype FailureRoute =
    | Retry(attempt: nat, notBefore: int)
    | DeadLetter(reason: Reason)

  /** A draw of `Math.random`; 1 is allowed because the specification tests inject it. */
  predicate Draw(u: real) { 0.0 <= u <= 1.0 }

  function Min(a: int, b: int): int { if a <= b then a else b }

  /** What the draw adds to a delay: whole milliseconds, at most a fifth of it. */
  function JitterOf(delay: nat, u: real): (jitter: nat)
    requires Draw(u)
    ensures 5 * jitter <= delay
  {
    var most := delay as real * JITTER_RATIO;
    ShareOfANonNegative(most, u);
    FloorWithin(most * u, delay);
    (most * u).Floor
  }

  lemma ShareOfANonNegative(x: real, u: real)
    requires 0.0 <= x && Draw(u)
    ensures 0.0 <= x * u <= x
  {
  }

  lemma FloorWithin(x: real, delay: nat)
    requires 0.0 <= x && 5.0 * x <= delay as real
    ensures 0 <= x.Floor && 5 * x.Floor <= delay
  {
    var floor := x.Floor;
    assert floor as real <= x;
    assert (5 * floor) as real == 5.0 * floor as real;
  }

  lemma JitterOfTheExtremeDraws(delay: nat)
    ensures JitterOf(delay, 0.0) == 0
    ensures JitterOf(delay, 1.0) == delay / 5
  {
    var most := delay as real * JITTER_RATIO;
    assert most * 0.0 == 0.0 && most * 1.0 == most;
    var fifth := delay / 5;
    assert fifth as real <= most < (fifth + 1) as real by {
      assert (5 * fifth) as real <= delay as real < (5 * fifth + 5) as real;
    }
  }

  function RetryDelayAfter(attempts: int, delays: seq<nat>, u: real): (r: Option<int>)
    requires Draw(u)
    ensures r.Some? <==> 1 <= attempts <= |delays|
    ensures r.Some? ==> delays[attempts - 1] <= r.value && 5 * r.value <= 6 * delays[attempts - 1]
  {
    if 1 <= attempts <= |delays| then Some(delays[attempts - 1] + JitterOf(delays[attempts - 1], u)) else None
  }

  function NextAttemptAt(attempts: int, now: int, delays: seq<nat>, u: real): Option<int>
    requires Draw(u)
  {
    match RetryDelayAfter(attempts, delays, u)
    case None => None
    case Some(delay) => Some(now + delay)
  }

  function AttemptsAllowedBy(delays: seq<nat>): nat { |delays| + 1 }

  /** Which failures come back, as which attempt and in which window, and why the others do not. */
  function RouteFailure(error: Error, attemptsSoFar: nat, now: int, u: real): (route: FailureRoute)
    requires Draw(u)
    ensures route == DeadLetter(PermanentFailure) <==> error.Permanent?
    ensures route == DeadLetter(Exhausted) <==>
              error.Transient? && AttemptsAllowedBy(RETRY_DELAYS_MS) <= attemptsSoFar + 1
    ensures route.Retry? ==>
              && attemptsSoFar < |RETRY_DELAYS_MS|
              && route.attempt == attemptsSoFar + 1
              && now + RETRY_DELAYS_MS[attemptsSoFar] <= route.notBefore
              && 5 * (route.notBefore - now) <= 6 * RETRY_DELAYS_MS[attemptsSoFar]
  {
    if error.Permanent? then DeadLetter(PermanentFailure)
    else
      match NextAttemptAt(attemptsSoFar + 1, now, RETRY_DELAYS_MS, u)
      case None => DeadLetter(Exhausted)
      case Some(at) => Retry(attemptsSoFar + 1, at)
  }

  const SECOND_MS := 1000
  const MINUTE_MS := 60 * SECOND_MS

  /** Without jitter: 5 seconds after the first failure, 30 seconds after the second, 5 minutes after the third. */
  lemma TheThreeWaits(text: string, now: int)
    ensures RouteFailure(Transient(text), 0, now, 0.0) == Retry(1, now + 5 * SECOND_MS)
    ensures RouteFailure(Transient(text), 1, now, 0.0) == Retry(2, now + 30 * SECOND_MS)
    ensures RouteFailure(Transient(text), 2, now, 0.0) == Retry(3, now + 5 * MINUTE_MS)
    ensures RouteFailure(Transient(text), 3, now, 0.0) == DeadLetter(Exhausted)
  {
    JitterOfTheExtremeDraws(RETRY_DELAYS_MS[0]);
    JitterOfTheExtremeDraws(RETRY_DELAYS_MS[1]);
    JitterOfTheExtremeDraws(RETRY_DELAYS_MS[2]);
  }

  // ---------- how long a failure is waited out ----------

  /**
   * The retry of an attempt that was dispatched at `calledAt` and threw at `failedAt` is not due
   * before its delay has passed since the throw.
   */
  predicate WaitCovers(text: string, attemptsSoFar: nat, calledAt: int, failedAt: int, u: real)
    requires Draw(u) && attemptsSoFar < |RETRY_DELAYS_MS|
  {
    failedAt + RETRY_DELAYS_MS[attemptsSoFar] <= RouteFailure(Transient(text), attemptsSoFar, calledAt, u).notBefore
  }

  /**
   * The wait covers the delay for a draw exactly when the attempt took no longer than that draw's
   * jitter; for every draw only when it took no time at all, and for some draw only when it took at
   * most a fifth of the delay.
   */
  lemma WaitCoversExactly(text: string, attemptsSoFar: nat, calledAt: int, failedAt: int)
    requires attemptsSoFar < |RETRY_DELAYS_MS| && calledAt <= failedAt
    ensures var took, delay := failedAt - calledAt, RETRY_DELAYS_MS[attemptsSoFar];
      && (forall u | Draw(u) ::
            WaitCovers(text, attemptsSoFar, calledAt, failedAt, u) <==> took <= JitterOf(delay, u))
      && ((forall u | Draw(u) :: WaitCovers(text, attemptsSoFar, calledAt, failedAt, u)) <==> took == 0)
      && ((exists u | Draw(u) :: WaitCovers(text, attemptsSoFar, calledAt, failedAt, u)) <==> 5 * took <= delay)
  {
    var took, delay := failedAt - calledAt, RETRY_DELAYS_MS[attemptsSoFar];
    JitterOfTheExtremeDraws(delay);
    assert Draw(0.0) && Draw(1.0);
    assert WaitCovers(text, attemptsSoFar, calledAt, failedAt, 0.0) <==> took <= 0;
    assert WaitCovers(text, attemptsSoFar, calledAt, failedAt, 1.0) <==> took <= delay / 5;
  }

  // ---------- the doubling schedule ----------

  function Pow2(i: nat): (p: nat)
    ensures p >= 1
  {
    if i == 0 then 1 else 2 * Pow2(i - 1)
  }

  /** The i-th delay in closed form: the first as given, then doubled and capped. */
  function DelayAt(first: int, cap: int, i: nat): int {
    if i == 0 then first else Min(first * Pow2(i), cap)
  }

  function Sum(s: seq<int>): int {
    if s == [] then 0 else Sum(s[..|s| - 1]) + s[|s| - 1]
  }

  lemma SumSnoc(s: seq<int>, x: int)
    ensures Sum(s + [x]) == Sum(s) + x
  {
    assert (s + [x])[..|s|] == s;
  }

  /** When the schedule is finite: nothing to wait, one delay is enough, or the delays grow the sum. */
  predicate ScheduleEnds(first: int, cap: int, total: int) {
    total <= 0 || total <= first || (0 < first && 0 < cap)
  }

  /** One turn of the loop's `delay = min(delay * 2, cap)` keeps the closed form. */
  lemma DoublingKeepsTheClosedForm(first: int, cap: int, i: nat)
    requires 0 < first && 0 < cap
    ensures Min(DelayAt(first, cap, i) * 2, cap) == DelayAt(first, cap, i + 1)
    ensures 0 < DelayAt(first, cap, i)
  {
    assert Pow2(i + 1) == 2 * Pow2(i);
    assert first * Pow2(i + 1) == 2 * (first * Pow2(i));
    assert 0 < first * Pow2(i);
  }

  /** `doublingDelays`: stops as soon as the delays add up to the total, never one delay late. */
  method DoublingDelays(first: int, cap: int, total: int) returns (delays: seq<int>)
    requires ScheduleEnds(first, cap, total)
    ensures forall i :: 0 <= i < |delays| ==> delays[i] == DelayAt(first, cap, i)
    ensures 0 < first <= cap ==>
              forall i :: 0 <= i < |delays| ==> delays[i] == Min(first * Pow2(i), cap)
    ensures total <= Sum(delays)
    ensures delays != [] ==> Sum(delays[..|delays| - 1]) < total
  {
    delays := [];
    var delay, elapsed := first, 0;
    while elapsed < total
      invariant elapsed == Sum(delays)
      invariant forall i :: 0 <= i < |delays| ==> delays[i] == DelayAt(first, cap, i)
      invariant elapsed < total ==> delay == DelayAt(first, cap, |delays|)
      invariant elapsed < total && delays != [] ==> 0 < first && 0 < cap
      invariant delays != [] ==> Sum(delays[..|delays| - 1]) < total
      decreases if elapsed < total then total - elapsed else 0
    {
      SumSnoc(delays, delay);
      if 0 < first && 0 < cap {
        DoublingKeepsTheClosedForm(first, cap, |delays|);
      }
      ghost var before := delays;
      delays := delays + [delay];
      assert delays[..|delays| - 1] == before;
      elapsed := elapsed + delay;
      delay := Min(delay * 2, cap);
    }
  }

  /** The elapsed time after `n` turns of the loop, were it to keep turning. */
  function ElapsedAfter(first: int, cap: int, n: nat): int {
    if n == 0 then 0 else ElapsedAfter(first, cap, n - 1) + LoopDelay(first, cap, n - 1)
  }

  /** The loop variable itself, turn by turn. */
  function LoopDelay(first: int, cap: int, n: nat): int {
    if n == 0 then first else Min(LoopDelay(first, cap, n - 1) * 2, cap)
  }

  /** Outside `ScheduleEnds` the loop never reaches its total, however long it turns. */
  lemma {:induction false} OtherwiseTheScheduleNeverEnds(first: int, cap: int, total: int, n: nat)
    requires !ScheduleEnds(first, cap, total)
    ensures ElapsedAfter(first, cap, n) < total
    ensures n > 0 ==> LoopDelay(first, cap, n) <= 0 && ElapsedAfter(first, cap, n) <= if first > 0 then first else 0
  {
    if n > 0 {
      OtherwiseTheScheduleNeverEnds(first, cap, total, n - 1);
    }
  }

  lemma {:induction false} ElapsedGrows(first: int, cap: int, n: nat)
    requires 0 < first && 0 < cap
    ensures 0 < LoopDelay(first, cap, n) && n <= ElapsedAfter(first, cap, n)
  {
    if n > 0 {
      ElapsedGrows(first, cap, n - 1);
    }
  }

  /** The loop ends exactly on the inputs `ScheduleEnds` names. */
  lemma ScheduleEndsExactly(first: int, cap: int, total: int)
    ensures ScheduleEnds(first, cap, total) <==> exists n: nat :: total <= ElapsedAfter(first, cap, n)
  {
    if ScheduleEnds(first, cap, total) {
      var n: nat := if total <= 0 then 0 else if total <= first then 1 else total;
      if total > 0 && total > first {
        ElapsedGrows(first, cap, n);
      }
      assert total <= ElapsedAfter(first, cap, n);
    } else {
      forall n: nat ensures !(total <= ElapsedAfter(first, cap, n)) {
        OtherwiseTheScheduleNeverEnds(first, cap, total, n);
      }
    }
  }

  /** The waits actually observed: each delay with its own draw of the jitter. */
  function JitteredTotal(delays: seq<nat>, draws: seq<real>, n: nat): int
    requires n <= |delays| == |draws|
    requires forall i :: 0 <= i < |draws| ==> Draw(draws[i])
  {
    if n == 0 then 0
    else JitteredTotal(delays, draws, n - 1) + RetryDelayAfter(n, delays, draws[n - 1]).value
  }

  /** However the jitter falls, the schedule outlasts its delays and at most by a fifth of them. */
  lemma {:induction false} JitteredScheduleLastsAtLeastItsDelays(delays: seq<nat>, draws: seq<real>, n: nat)
    requires n <= |delays| == |draws|
    requires forall i :: 0 <= i < |draws| ==> Draw(draws[i])
    ensures Sum(delays[..n]) <= JitteredTotal(delays, draws, n)
    ensures 5 * JitteredTotal(delays, draws, n) <= 6 * Sum(delays[..n])
  {
    if n > 0 {
      JitteredScheduleLastsAtLeastItsDelays(delays, draws, n - 1);
      assert delays[..n][..n - 1] == delays[..n - 1];
    }
  }
}
