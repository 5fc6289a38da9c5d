/** client/src/client.rs: the reconnect state behind `reconnect_lock`.

    `State` is its value and the `…Spec` functions are the critical sections of `connect_inner`,
    `lead_reconnect` and the guard's drop; the class `JuicityClient` updates its fields in place
    and is proved against them. Times are nanoseconds. */
module Reconnect {
  import opened Common

  /** `last_failure`: when the attempt failed and with which error. */
  datatype Failure = Failure(at: nat, error: nat)

  datatype State = State(
    lastFailure: Option<Failure>, attempts: nat, inFlight: bool, recordFailure: bool, done: Option<nat>)

  const DEFAULT := State(None, 0, false, false, None)

  function ShiftLeft(n: nat): nat {
    if n == 0 then 1 else 2 * ShiftLeft(n - 1)
  }

  /** `reconnect_delay`, in seconds. */
  function DelaySeconds(attempts: nat): nat {
    Min(ShiftLeft(Min(attempts, 5)), 30)
  }

  function Delay(attempts: nat): nat {
    DelaySeconds(attempts) * SECOND
  }

  datatype Decision = UseConnection(connection: nat) | BackOff(error: nat) | Join(notify: nat) | Lead | Panic

  /** The critical section of `connect_inner`; `newcomer` is the handle a new leader creates. */
  function DecideSpec(s: State, live: Option<nat>, now: nat, request: bool, newcomer: nat): (State, Decision) {
    if live.Some? then (s, UseConnection(live.value))
    else if s.lastFailure.Some? && Age(now, s.lastFailure.value.at) < Delay(s.attempts) then
      (s, BackOff(s.lastFailure.value.error))
    else if s.inFlight then
      if s.done.None? then (s, Panic)
      else (s.(recordFailure := s.recordFailure || request), Join(s.done.value))
    else
      (s.(inFlight := true, recordFailure := request, done := Some(newcomer)), Lead)
  }

  /** A failed dial. */
  function FailSpec(s: State, now: nat, error: nat): State {
    if s.recordFailure then
      State(Some(Failure(now, error)), Min(s.attempts + 1, U32_MAX), false, s.recordFailure, None)
    else s.(inFlight := false, done := None)
  }

  /** The guard's drop after `try_lock` succeeded. */
  function AbandonSpec(s: State): State {
    s.(inFlight := false, done := None)
  }

  /** `notify_waiters` on handle `n`. */
  function NotifyWaiters(generations: seq<nat>, n: nat): seq<nat> {
    if n < |generations| then generations[n := generations[n] + 1] else generations
  }

  /** The fields of the client that a reconnect touches: `ReconnectState`, the connection, and the handles. */
  class JuicityClient {
    var lastFailure: Option<Failure>
    var attempts: nat
    var inFlight: bool
    var recordFailure: bool
    var done: Option<nat>
    var connection: Option<nat>
    var generations: seq<nat>

    function View(): State
      reads this
    {
      State(lastFailure, attempts, inFlight, recordFailure, done)
    }

    constructor ()
      ensures View() == DEFAULT && connection == None && generations == []
    {
      lastFailure, attempts, inFlight, recordFailure, done := None, 0, false, false, None;
      connection, generations := None, [];
    }

    /** The critical section of `connect_inner`; a leader makes its handle. */
    method Decide(live: Option<nat>, now: nat, request: bool) returns (d: Decision)
      modifies this
      ensures (View(), d) == DecideSpec(old(View()), live, now, request, |old(generations)|)
      ensures generations == old(generations) + (if d.Lead? then [0] else []) && connection == old(connection)
    {
      if live.Some? {
        return UseConnection(live.value);
      }
      if lastFailure.Some? {
        var elapsed := Age(now, lastFailure.value.at);
        if elapsed < Delay(attempts) {
          return BackOff(lastFailure.value.error);
        }
      }
      if inFlight {
        if done.None? {
          return Panic;
        }
        if request {
          recordFailure := true;
        }
        return Join(done.value);
      }
      inFlight := true;
      recordFailure := request;
      done := Some(|generations|);
      generations := generations + [0];
      d := Lead;
    }

    method Fail(now: nat, error: nat)
      modifies this
      ensures View() == FailSpec(old(View()), now, error)
      ensures connection == old(connection) && generations == old(generations)
    {
      if recordFailure {
        lastFailure := Some(Failure(now, error));
        attempts := if attempts + 1 > U32_MAX then U32_MAX else attempts + 1;
      }
      inFlight := false;
      done := None;
    }

    /** The new connection becomes visible in the section that clears the attempt. */
    method Publish(c: nat)
      modifies this
      ensures View() == DEFAULT && connection == Some(c) && generations == old(generations)
    {
      connection := Some(c);
      lastFailure, attempts, inFlight, recordFailure, done := None, 0, false, false, None;
    }

    /** The guard's drop once `try_lock` succeeded: the handle that was taken is notified. */
    method Abandon()
      modifies this
      ensures View() == AbandonSpec(old(View())) && connection == old(connection)
      ensures generations ==
              if old(done).Some? then NotifyWaiters(old(generations), old(done).value) else old(generations)
    {
      inFlight := false;
      var taken := done;
      done := None;
      if taken.Some? && taken.value < |generations| {
        generations := generations[taken.value := generations[taken.value] + 1];
      }
    }
  }

  // ---------------------------------------------------------------- backoff arithmetic

  /** The delays are 2, 4, 8, 16 and then 30 seconds. */
  lemma DelayTable(n: nat)
    requires n >= 1
    ensures DelaySeconds(n) ==
            if n == 1 then 2 else if n == 2 then 4 else if n == 3 then 8 else if n == 4 then 16 else 30
  {}

  /** Consecutive entries are at least the backoff delay apart. */
  ghost predicate Spaced(times: seq<nat>) {
    forall i | 0 < i < |times| :: times[i] >= times[i - 1] + Delay(i)
  }

  /** From the fifth failure on, n failures take at least 30(n - 4) seconds. */
  lemma {:induction false} SpacedSpan(times: seq<nat>)
    requires Spaced(times) && |times| >= 5
    ensures times[|times| - 1] >= times[0] + 30 * (|times| - 4) * SECOND
  {
    var n := |times|;
    DelayTable(n - 1);
    if n == 5 {
      DelayTable(1); DelayTable(2); DelayTable(3);
      assert times[1] >= times[0] + 2 * SECOND;
      assert times[2] >= times[1] + 4 * SECOND;
      assert times[3] >= times[2] + 8 * SECOND;
    } else {
      SpacedSpan(times[..n - 1]);
      assert times[n - 1] >= times[n - 2] + 30 * SECOND;
    }
  }
}
