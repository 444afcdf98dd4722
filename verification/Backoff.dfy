/** The retry consumer's wait for a message's not-before, against a clock that moves on its own. */
module Backoff {
  import opened Options

  /** Never sleep past a heartbeat. */
  const HEARTBEAT_INTERVAL_MS := 3000

  datatype Wait = Due | ShuttingDown

  /**
   * The consumer process: its monotonic clock, whose every reading may come any time later than the
   * one before, and the flag `stop` raises and nothing lowers.
   */
  class Process {
    var clock: int
    var stopping: bool
    /** How often it slept, and how often it told the broker it is alive. */
    var slept: nat
    var beats: nat

    constructor (clock: int)
      ensures this.clock == clock && !stopping && slept == beats == 0
    {
      this.clock := clock;
      stopping := false;
      slept, beats := 0, 0;
    }

    /** `performance.now()`, and whatever else happened in the meantime. */
    method Now() returns (reading: int)
      modifies this`clock, this`stopping
      ensures reading == clock && old(clock) <= clock
      ensures old(stopping) ==> stopping
    {
      var elapsed: int :| elapsed >= 0;
      var stopped: bool := *;
      clock := clock + elapsed;
      stopping := stopping || stopped;
      reading := clock;
    }

    /** A timer fires no earlier than it was asked to, and is never asked past a heartbeat. */
    method Sleep(ms: int)
      requires 0 < ms <= HEARTBEAT_INTERVAL_MS
      modifies this`clock, this`stopping, this`slept
      ensures old(clock) + ms <= clock && slept == old(slept) + 1
      ensures old(stopping) ==> stopping
    {
      var late: int :| late >= 0;
      var stopped: bool := *;
      clock := clock + ms + late;
      stopping := stopping || stopped;
      slept := slept + 1;
    }

    method Heartbeat()
      modifies this`clock, this`stopping, this`beats
      ensures old(clock) <= clock && beats == old(beats) + 1
      ensures old(stopping) ==> stopping
    {
      beats := beats + 1;
      var elapsed := Now();
    }

    /**
     * `waitUntilDue`: returns normally only once the wait is over, and leaves it otherwise only for
     * a shutdown, having seen the flag; a process already stopping does not sleep at all. It ends
     * however slowly the clock moves between two readings, and beats at least once a sleep.
     */
    method WaitUntilDue(waitMs: int) returns (wait: Wait)
      modifies this
      ensures wait == Due ==> old(clock) + waitMs <= clock
      ensures wait == ShuttingDown ==> stopping && 0 < waitMs
      ensures old(stopping) ==> stopping && slept == old(slept)
      ensures old(clock) <= clock
      ensures slept - old(slept) <= beats - old(beats)
    {
      var start := Now();
      var due := start + waitMs;
      var reading := Now();
      while reading < due
        invariant start == old(clock) || old(clock) < start
        invariant start <= reading <= clock
        invariant old(stopping) ==> stopping && slept == old(slept)
        invariant slept - old(slept) <= beats - old(beats)
        invariant reading < due ==> 0 < waitMs
        decreases due - reading
      {
        if stopping {
          return ShuttingDown;
        }
        var current := Now();
        var slice := if HEARTBEAT_INTERVAL_MS <= due - current then HEARTBEAT_INTERVAL_MS else due - current;
        if slice > 0 {
          Sleep(slice);
        }
        Heartbeat();
        reading := Now();
      }
      wait := Due;
    }
  }

  /**
   * What `eachMessage` waits for a retry carrying `notBefore`, read at `now`: handled at once when it
   * is already due or says nothing, never handled early otherwise.
   */
  method HoldUntilDue(process: Process, notBefore: Option<int>, now: int) returns (wait: Wait)
    modifies process
    ensures wait == Due && notBefore.Some? ==> notBefore.value - now <= process.clock - old(process.clock)
    ensures wait == ShuttingDown ==> process.stopping && notBefore.Some? && now < notBefore.value
    ensures notBefore.None? || notBefore.value <= now ==> wait == Due && process.clock == old(process.clock)
    ensures old(process.stopping) ==> process.slept == old(process.slept)
  {
    wait := Due;
    var waitMs := if notBefore.None? then 0 else notBefore.value - now;
    if waitMs > 0 {
      wait := process.WaitUntilDue(waitMs);
    }
  }
}
