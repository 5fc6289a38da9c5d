/** Two runs of the reconnect machine that the comments in client/src/client.rs do not expect. */
module ReconnectWitness {
  import opened Common
  import opened Reconnect
  import opened ReconnectRuns

  lemma Extend(events: seq<Event>, e: Event, s': System) returns (longer: seq<Event>)
    requires Next(Run(events), e) == s'
    ensures longer == events + [e] && Run(longer) == s'
  {
    RunStep(events, e);
    longer := events + [e];
  }

  // ---------------------------------------------------------------- a cancelled leader that loses the lock

  /** The first caller leads. */
  lemma OneLeads() returns (events: seq<Event>)
    ensures Run(events) ==
            System(0, State(None, 0, true, true, Some(0)), [0], None, None, {},
                   map[0 := Task(true, Clearing(0))],
                   [], 0, {0}, [], false)
  {
    assert Run([]) == INIT;
    hide Run;
    events := Extend([], Begin(0, true), INIT.(tasks := map[0 := Task(true, Start)]));
    events := Extend(events, Advance(0), INIT.(tasks := map[0 := Task(true, WantLock)]));
    events := Extend(events, Acquire(0), INIT.(lock := Some(0), tasks := map[0 := Task(true, Deciding)]));
    events := Extend(events, Advance(0), System(0, State(None, 0, true, true, Some(0)), [0], None, None, {},
                                                map[0 := Task(true, Clearing(0))], [], 0, {0}, [], false));
  }

  /** While a second caller holds the lock, the leader is cancelled. */
  lemma LeaderCancelledUnderLock() returns (events: seq<Event>)
    ensures Run(events) ==
            System(0, State(None, 0, true, true, Some(0)), [0], Some(1), None, {},
                   map[0 := Task(true, Dropping(0)), 1 := Task(true, Deciding)],
                   [], 0, {0}, [], false)
  {
    events := OneLeads();
    hide Run;
    var s, leader := Run(events), Task(true, Clearing(0));
    events := Extend(events, Begin(1, true), s.(tasks := map[0 := leader, 1 := Task(true, Start)]));
    events := Extend(events, Advance(1), s.(tasks := map[0 := leader, 1 := Task(true, WantLock)]));
    events := Extend(events, Acquire(1), s.(lock := Some(1), tasks := map[0 := leader, 1 := Task(true, Deciding)]));
    events := Extend(events, Cancel(0),
                     s.(lock := Some(1), tasks := map[0 := Task(true, Dropping(0)), 1 := Task(true, Deciding)]));
  }

  /** From there the client is stuck: whatever happens next, the attempt stays in flight, nobody leads it, its handle is
      never notified and there is no connection. */
  lemma WedgeIsReachable() returns (events: seq<Event>)
    ensures var s := Run(events);
            && 0 in s.tasks && s.tasks[0].phase == Dropping(0) && s.lock == Some(1)
            && forall more ::
                 var later := From(Next(s, Advance(0)), more);
                 && later.state.inFlight && later.connection == None && (forall u :: !IsLeader(later, u))
                 && 0 < |later.generations| && later.generations[0] == 0
  {
    events := LeaderCancelledUnderLock();
    hide Run, From;
    forall more
      ensures var later := From(Next(Run(events), Advance(0)), more);
              && later.state.inFlight && later.connection == None && (forall u :: !IsLeader(later, u))
              && 0 < |later.generations| && later.generations[0] == 0
    {
      CancelClearsIffTryLock(events, 0, more);
    }
  }

  // ---------------------------------------------------------------- an abandoned attempt with an old failure

  /** A dial fails and is recorded. */
  lemma FirstDialFails(error: nat) returns (events: seq<Event>)
    ensures Run(events) ==
            System(0, State(Some(Failure(0, error)), 1, false, true, None), [0], None, None, {},
                   map[0 := Task(true, Notifying(0, Failed(error)))],
                   [0], 0, {0}, [Verdict(true, {0})], false)
  {
    events := OneLeads();
    hide Run;
    var s := Run(events);
    events := Extend(events, Advance(0), s.(tasks := map[0 := Task(true, Dialing(0))]));
    events := Extend(events, DialErr(0, error), s.(tasks := map[0 := Task(true, FailWantLock(0, error))]));
    events := Extend(events, Acquire(0), s.(lock := Some(0), tasks := map[0 := Task(true, FailLocked(0, error))]));
    events := Extend(events, Advance(0),
                     System(0, State(Some(Failure(0, error)), 1, false, true, None), [0], None, None, {},
                            map[0 := Task(true, Notifying(0, Failed(error)))], [0], 0, {0}, [Verdict(true, {0})],
                                false));
  }

  /** The failed leader is done, and two seconds later its backoff is over. */
  lemma BackoffIsOver(error: nat) returns (events: seq<Event>)
    ensures Run(events) ==
            System(2 * SECOND, State(Some(Failure(0, error)), 1, false, true, None), [1], None, None, {},
                   map[0 := Task(true, Returned(Failed(error)))],
                   [0], 0, {0}, [Verdict(true, {0})], false)
  {
    events := FirstDialFails(error);
    hide Run;
    var s, over := Run(events), map[0 := Task(true, Returned(Failed(error)))];
    events := Extend(events, Advance(0), s.(generations := [1], tasks := over));
    events := Extend(events, Tick(2 * SECOND), s.(clock := 2 * SECOND, generations := [1], tasks := over));
  }

  /** A second caller leads the next attempt. */
  lemma SecondLeads(error: nat) returns (events: seq<Event>)
    ensures Run(events) ==
            System(2 * SECOND, State(Some(Failure(0, error)), 1, true, true, Some(1)), [1, 0], None, None, {},
                   map[0 := Task(true, Returned(Failed(error))), 1 := Task(true, Clearing(1))],
                   [0], 2 * SECOND, {1}, [Verdict(true, {0})], false)
  {
    events := BackoffIsOver(error);
    DelayTable(1);
    hide Run;
    var s, first := Run(events), Task(true, Returned(Failed(error)));
    events := Extend(events, Begin(1, true), s.(tasks := map[0 := first, 1 := Task(true, Start)]));
    events := Extend(events, Advance(1), s.(tasks := map[0 := first, 1 := Task(true, WantLock)]));
    events := Extend(events, Acquire(1), s.(lock := Some(1), tasks := map[0 := first, 1 := Task(true, Deciding)]));
    events := Extend(events, Advance(1),
                     System(2 * SECOND, State(Some(Failure(0, error)), 1, true, true, Some(1)), [1, 0], None, None, {},
                            map[0 := first, 1 := Task(true, Clearing(1))], [0], 2 * SECOND, {1},
                                [Verdict(true, {0})], false));
  }

  /** A third caller joins it. */
  lemma ThirdJoins(error: nat) returns (events: seq<Event>)
    ensures Run(events) ==
            System(2 * SECOND, State(Some(Failure(0, error)), 1, true, true, Some(1)), [1, 0], None, None, {},
                   map[0 := Task(true, Returned(Failed(error))),
                       1 := Task(true, Clearing(1)),
                       2 := Task(true, JoinedCheck(1, 0))],
                   [0], 2 * SECOND, {1, 2}, [Verdict(true, {0})], false)
  {
    events := SecondLeads(error);
    DelayTable(1);
    hide Run;
    var s, first, leader := Run(events), Task(true, Returned(Failed(error))), Task(true, Clearing(1));
    events := Extend(events, Begin(2, true), s.(tasks := map[0 := first, 1 := leader, 2 := Task(true, Start)]));
    events := Extend(events, Advance(2), s.(tasks := map[0 := first, 1 := leader, 2 := Task(true, WantLock)]));
    events := Extend(events, Acquire(2),
        s.(lock := Some(2), tasks := map[0 := first, 1 := leader, 2 := Task(true, Deciding)]));
    assert {1} + {2} == {1, 2};
    events := Extend(events, Advance(2),
                     s.(members := {1, 2}, tasks := map[0 := first, 1 := leader, 2 := Task(true, JoinedCheck(1, 0))]));
  }

  /** It parks. */
  lemma ThirdParks(error: nat) returns (events: seq<Event>)
    ensures Run(events) ==
            System(2 * SECOND, State(Some(Failure(0, error)), 1, true, true, Some(1)), [1, 0], None, None, {},
                   map[0 := Task(true, Returned(Failed(error))),
                       1 := Task(true, Clearing(1)),
                       2 := Task(true, Parked(1, 0))],
                   [0], 2 * SECOND, {1, 2}, [Verdict(true, {0})], false)
  {
    events := ThirdJoins(error);
    hide Run;
    var s, first, leader := Run(events), Task(true, Returned(Failed(error))), Task(true, Clearing(1));
    events := Extend(events, Advance(2),
        s.(tasks := map[0 := first, 1 := leader, 2 := Task(true, JoinedWantLock(1, 0))]));
    events := Extend(events, Acquire(2),
                     s.(lock := Some(2), tasks := map[0 := first, 1 := leader, 2 := Task(true, JoinedLocked(1, 0))]));
    events := Extend(events, Advance(2), s.(tasks := map[0 := first, 1 := leader, 2 := Task(true, Parked(1, 0))]));
  }

  /** The leader is cancelled before it dials, the guard gets the lock and wakes the third caller. */
  lemma SecondAbandons(error: nat) returns (events: seq<Event>)
    ensures Run(events) ==
            System(2 * SECOND, State(Some(Failure(0, error)), 1, false, true, None), [1, 1], None, None, {},
                   map[0 := Task(true, Returned(Failed(error))),
                       1 := Task(true, Returned(Cancelled)),
                       2 := Task(true, Parked(1, 0))],
                   [0], 2 * SECOND, {1, 2}, [Verdict(true, {0})], false)
  {
    events := ThirdParks(error);
    hide Run;
    var s, first, waiter := Run(events), Task(true, Returned(Failed(error))), Task(true, Parked(1, 0));
    events := Extend(events, Cancel(1), s.(tasks := map[0 := first, 1 := Task(true, Dropping(1)), 2 := waiter]));
    events := Extend(events, Advance(1),
                     s.(state := State(Some(Failure(0, error)), 1, false, true, None), generations := [1, 1],
                        tasks := map[0 := first, 1 := Task(true, Returned(Cancelled)), 2 := waiter]));
  }

  /** An attempt that was merely cancelled makes its waiter return the error of an earlier attempt, whose backoff is
      over. */
  lemma StaleErrorReturned(error: nat) returns (events: seq<Event>)
    ensures var s := Run(events);
            && 2 in s.tasks && s.tasks[2].phase == Returned(Failed(error)) && s.tasks[2].request
            && 1 in s.tasks && s.tasks[1].phase == Returned(Cancelled)
            && s.verdicts == [Verdict(true, {0})] && s.failures == [0]
                && s.clock - s.failures[0] >= Delay(s.state.attempts)
  {
    events := SecondAbandons(error);
    DelayTable(1);
    hide Run;
    var s, first, second := Run(events), Task(true, Returned(Failed(error))), Task(true, Returned(Cancelled));
    events := Extend(events, Advance(2), s.(tasks := map[0 := first, 1 := second, 2 := Task(true, WokenCheck)]));
    events := Extend(events, Advance(2), s.(tasks := map[0 := first, 1 := second, 2 := Task(true, WokenWantLock)]));
    events := Extend(events, Acquire(2),
                     s.(lock := Some(2), tasks := map[0 := first, 1 := second, 2 := Task(true, WokenLocked)]));
    events := Extend(events, Advance(2),
        s.(tasks := map[0 := first, 1 := second, 2 := Task(true, Returned(Failed(error)))]));
  }
}
