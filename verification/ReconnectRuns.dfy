/** client/src/client.rs under concurrency: any number of `connect` and `preconnect` calls, with cancellation
    at every await, connections closing at any time, and the tokio mutex `reconnect_lock` held across awaits.

    `failures`, `started`, `members`, `verdicts` and `orphaned` record history; no step reads them. */
module ReconnectRuns {
  import opened Common
  import opened Reconnect

  datatype Outcome = Connected(connection: nat) | Failed(error: nat) | Cancelled | Panicked

  datatype Phase =
    | Start
    | WantLock
    | Deciding
    | JoinedCheck(notify: nat, generation: nat)
    | JoinedWantLock(notify: nat, generation: nat)
    | JoinedLocked(notify: nat, generation: nat)
    | Parked(notify: nat, generation: nat)
    | WokenCheck
    | WokenWantLock
    | WokenLocked
    | Clearing(own: nat)
    | Dialing(own: nat)
    | FailWantLock(own: nat, error: nat)
    | FailLocked(own: nat, error: nat)
    | PublishWantLock(own: nat, dialed: nat)
    | PublishLocked(own: nat, dialed: nat)
    | Dropping(own: nat)
    | Notifying(finished: nat, outcome: Outcome)
    | Returned(outcome: Outcome)
  {
    predicate HoldsLock() { Deciding? || JoinedLocked? || WokenLocked? || FailLocked? || PublishLocked? }

    /** The task dials: its guard is armed. */
    predicate Leads() {
      Clearing? || Dialing? || FailWantLock? || FailLocked? || PublishWantLock? || PublishLocked? || Dropping?
    }

    /** The task joined an attempt and has not been woken. */
    predicate Waits() { JoinedCheck? || JoinedWantLock? || JoinedLocked? || Parked? }

    /** No await separates these phases from the next step. */
    predicate Uncancellable() { Dropping? || Notifying? || Returned? }
  }

  /** `request`: the call is `connect`, not `preconnect`. */
  datatype Task = Task(request: bool, phase: Phase)

  /** A dial that failed: whether it armed the backoff, and who took part in it. */
  datatype Verdict = Verdict(recorded: bool, members: set<nat>)

  datatype System = System(
    clock: nat,
    state: State,
    generations: seq<nat>,
    lock: Option<nat>,
    connection: Option<nat>,
    open: set<nat>,
    tasks: map<nat, Task>,
    failures: seq<nat>,
    started: nat,
    members: set<nat>,
    verdicts: seq<Verdict>,
    orphaned: bool)

  const INIT := System(0, DEFAULT, [], None, None, {}, map[], [], 0, {}, [], false)

  datatype Event =
    | Tick(amount: nat)
    | Close(connection: nat)
    | Begin(task: nat, request: bool)
    | Acquire(task: nat)
    | Advance(task: nat)
    | DialOk(task: nat, connection: nat)
    | DialErr(task: nat, error: nat)
    | Cancel(task: nat)

  /** `live_connection`. */
  function Live(s: System): Option<nat> {
    if s.connection.Some? && s.connection.value in s.open then s.connection else None
  }

  function Locked(p: Phase): Option<Phase> {
    match p
    case WantLock => Some(Deciding)
    case JoinedWantLock(n, g) => Some(JoinedLocked(n, g))
    case WokenWantLock => Some(WokenLocked)
    case FailWantLock(n, error) => Some(FailLocked(n, error))
    case PublishWantLock(n, c) => Some(PublishLocked(n, c))
    case _ => None
  }

  predicate Enabled(s: System, e: Event) {
    match e
    case Tick(_) => true
    case Close(_) => true
    case Begin(t, _) => t !in s.tasks
    case Acquire(t) => t in s.tasks && s.lock.None? && Locked(s.tasks[t].phase).Some?
    case Advance(t) => t in s.tasks && CanAdvance(s, s.tasks[t].phase)
    case DialOk(t, _) => t in s.tasks && s.tasks[t].phase.Dialing?
    case DialErr(t, _) => t in s.tasks && s.tasks[t].phase.Dialing?
    case Cancel(t) => t in s.tasks && !s.tasks[t].phase.Uncancellable()
  }

  predicate CanAdvance(s: System, p: Phase) {
    match p
    case Parked(n, g) => n < |s.generations| && s.generations[n] > g
    case Dialing(_) => false
    case Returned(_) => false
    case Notifying(n, _) => n < |s.generations|
    case _ => Locked(p).None?
  }

  function Goto(s: System, t: nat, p: Phase): System
    requires t in s.tasks
  {
    s.(tasks := s.tasks[t := s.tasks[t].(phase := p)])
  }

  /** Move on and release the lock. */
  function Leave(s: System, t: nat, p: Phase): System
    requires t in s.tasks
  {
    Goto(s.(lock := None), t, p)
  }

  function Decide(s: System, t: nat): System
    requires t in s.tasks
  {
    var n := |s.generations|;
    var (state, d) := DecideSpec(s.state, Live(s), s.clock, s.tasks[t].request, n);
    match d
    case UseConnection(c) => Leave(s, t, Returned(Connected(c)))
    case BackOff(error) => Leave(s, t, Returned(Failed(error)))
    case Panic => Leave(s, t, Returned(Panicked))
    case Join(m) =>
      Leave(s.(state := state, members := s.members + {t}), t,
            if m < |s.generations| then JoinedCheck(m, s.generations[m]) else Returned(Panicked))
    case Lead =>
      Leave(s.(state := state, generations := s.generations + [0], started := s.clock, members := {t}), t, Clearing(n))
  }

  function JoinedLockedStep(s: System, t: nat, n: nat, g: nat): System
    requires t in s.tasks
  {
    if s.state.inFlight then Leave(s, t, Parked(n, g))
    else if Live(s).Some? then Leave(s, t, Returned(Connected(Live(s).value)))
    else if s.state.lastFailure.Some? then Leave(s, t, Returned(Failed(s.state.lastFailure.value.error)))
    else Leave(s, t, WantLock)
  }

  function FailStep(s: System, t: nat, n: nat, error: nat): System
    requires t in s.tasks
  {
    Leave(s.(state := FailSpec(s.state, s.clock, error),
             failures := if s.state.recordFailure then s.failures + [s.clock] else s.failures,
             verdicts := s.verdicts + [Verdict(s.state.recordFailure, s.members)]),
          t, Notifying(n, Failed(error)))
  }

  function PublishStep(s: System, t: nat, n: nat, c: nat): System
    requires t in s.tasks
  {
    Leave(s.(state := DEFAULT, connection := Some(c), failures := []), t, Notifying(n, Connected(c)))
  }

  /** The guard's drop: `try_lock`, and if it fails nothing is cleared. */
  function DropStep(s: System, t: nat): System
    requires t in s.tasks
  {
    if s.lock.None? then
      Goto(s.(state := AbandonSpec(s.state),
              generations :=
                if s.state.done.Some? then NotifyWaiters(s.generations, s.state.done.value) else s.generations),
           t, Returned(Cancelled))
    else Goto(s.(orphaned := true), t, Returned(Cancelled))
  }

  function AdvanceStep(s: System, t: nat): System
    requires t in s.tasks && CanAdvance(s, s.tasks[t].phase)
  {
    var live := Live(s);
    match s.tasks[t].phase
    case Start => Goto(s, t, if live.Some? then Returned(Connected(live.value)) else WantLock)
    case Deciding => Decide(s, t)
    case JoinedCheck(n, g) => Goto(s, t, if live.Some? then Returned(Connected(live.value)) else JoinedWantLock(n, g))
    case JoinedLocked(n, g) => JoinedLockedStep(s, t, n, g)
    case Parked(_, _) => Goto(s, t, WokenCheck)
    case WokenCheck => Goto(s, t, if live.Some? then Returned(Connected(live.value)) else WokenWantLock)
    case WokenLocked =>
      if s.state.lastFailure.Some? then Leave(s, t, Returned(Failed(s.state.lastFailure.value.error)))
      else Leave(s, t, WantLock)
    case Clearing(n) => Goto(s.(connection := None), t, Dialing(n))
    case FailLocked(n, error) => FailStep(s, t, n, error)
    case PublishLocked(n, c) => PublishStep(s, t, n, c)
    case Notifying(n, outcome) => Goto(s.(generations := NotifyWaiters(s.generations, n)), t, Returned(outcome))
    case Dropping(_) => DropStep(s, t)
  }

  /** A cancelled leader still has to run its guard; any lock it held is released first. */
  function CancelStep(s: System, t: nat): System
    requires t in s.tasks
  {
    var p := s.tasks[t].phase;
    var s' := if p.HoldsLock() then s.(lock := None) else s;
    Goto(s', t, if p.Leads() then Dropping(p.own) else Returned(Cancelled))
  }

  function Step(s: System, e: Event): System
    requires Enabled(s, e)
  {
    match e
    case Tick(amount) => s.(clock := s.clock + amount)
    case Close(c) => s.(open := s.open - {c})
    case Begin(t, request) => s.(tasks := s.tasks[t := Task(request, Start)])
    case Acquire(t) => Goto(s.(lock := Some(t)), t, Locked(s.tasks[t].phase).value)
    case Advance(t) => AdvanceStep(s, t)
    case DialOk(t, c) => Goto(s.(open := s.open + {c}), t, PublishWantLock(s.tasks[t].phase.own, c))
    case DialErr(t, error) => Goto(s, t, FailWantLock(s.tasks[t].phase.own, error))
    case Cancel(t) => CancelStep(s, t)
  }

  // ---------------------------------------------------------------- invariants

  /** `lock` names the one task that is in a critical section. */
  ghost predicate LockOk(s: System) {
    && (s.lock.Some? ==> s.lock.value in s.tasks)
    && forall t | t in s.tasks :: s.tasks[t].phase.HoldsLock() <==> s.lock == Some(t)
  }

  /** `in_flight` implies a completion handle. */
  ghost predicate FlightOk(s: System) {
    && (s.state.inFlight <==> s.state.done.Some?)
    && (s.state.done.Some? ==> s.state.done.value < |s.generations|)
  }

  /** At most one task leads, and it leads the attempt that is in flight. */
  ghost predicate LeaderOk(s: System) {
    && (forall t | IsLeader(s, t) :: s.state.done == Some(s.tasks[t].phase.own))
    && (forall t, u | IsLeader(s, t) && IsLeader(s, u) :: t == u)
    && (s.state.inFlight && !s.orphaned ==> exists t :: IsLeader(s, t))
  }

  ghost predicate IsLeader(s: System, t: nat) {
    t in s.tasks && s.tasks[t].phase.Leads()
  }

  /** The handle of a waiter that was not notified is `done`, or its leader is about to notify. */
  ghost predicate WaiterOk(s: System, n: nat, g: nat) {
    && n < |s.generations|
    && g <= s.generations[n]
    && (s.generations[n] == g ==> s.state.done == Some(n) || exists u :: AboutToFire(s, u, n))
  }

  ghost predicate AboutToFire(s: System, u: nat, n: nat) {
    u in s.tasks && s.tasks[u].phase.Notifying? && s.tasks[u].phase.finished == n
  }

  ghost predicate WaitersOk(s: System) {
    && (forall t | t in s.tasks && s.tasks[t].phase.Waits() ::
        WaiterOk(s, s.tasks[t].phase.notify, s.tasks[t].phase.generation))
    && (forall t | t in s.tasks && s.tasks[t].phase.Notifying? :: s.tasks[t].phase.finished < |s.generations|)
  }

  ghost predicate AnyRequest(s: System, members: set<nat>) {
    exists t :: t in members && t in s.tasks && s.tasks[t].request
  }

  /** The attempt in flight, and every failed attempt, is recorded exactly if a `connect` took part. */
  ghost predicate VerdictsOk(s: System) {
    && s.members <= s.tasks.Keys
    && (s.state.inFlight ==> (s.state.recordFailure <==> AnyRequest(s, s.members)))
    && (forall i | 0 <= i < |s.verdicts| ::
          s.verdicts[i].members <= s.tasks.Keys && (s.verdicts[i].recorded <==> AnyRequest(s, s.verdicts[i].members)))
  }

  /** `attempts` and `last_failure` summarise the failures recorded since the last success. */
  ghost predicate BackoffOk(s: System) {
    var n := |s.failures|;
    && s.state.attempts == Min(n, U32_MAX)
    && (if n == 0 then s.state.lastFailure.None?
        else s.state.lastFailure.Some? && s.state.lastFailure.value.at == s.failures[n - 1] <= s.clock)
    && Spaced(s.failures)
    && s.started <= s.clock
    && (s.state.inFlight && n > 0 ==> s.started >= s.failures[n - 1] + Delay(n))
  }

  ghost predicate NoPanic(s: System) {
    forall t | t in s.tasks ::
      && s.tasks[t].phase != Returned(Panicked)
      && (s.tasks[t].phase.Notifying? ==> !s.tasks[t].phase.outcome.Panicked?)
  }

  /** A leader that is about to notify has already given up `done`. */
  ghost predicate NotifiersOk(s: System) {
    forall t | t in s.tasks && s.tasks[t].phase.Notifying? :: s.state.done != Some(s.tasks[t].phase.finished)
  }

  ghost predicate Inv(s: System) {
    && NotifiersOk(s) && LockOk(s) && FlightOk(s) && LeaderOk(s)
    && WaitersOk(s) && VerdictsOk(s) && BackoffOk(s) && NoPanic(s)
  }

  // ---------------------------------------------------------------- one step

  /** A step changes the phase of one task, or adds it. */
  ghost predicate OnlyMoves(s: System, s': System, t: nat) {
    && t in s'.tasks
    && s'.tasks.Keys == s.tasks.Keys + {t}
    && (forall u | u in s.tasks && u != t :: s'.tasks[u] == s.tasks[u])
    && (t in s.tasks ==> s'.tasks[t].request == s.tasks[t].request)
  }

  lemma AdvanceMoves(s: System, t: nat)
    requires Enabled(s, Advance(t))
    ensures OnlyMoves(s, AdvanceStep(s, t), t)
  {
    hide DecideSpec, FailSpec, AbandonSpec, NotifyWaiters, Live, Delay;
    if s.tasks[t].phase.Deciding? {
      DecideMoves(s, t);
    }
    hide Decide;
  }

  lemma DecideMoves(s: System, t: nat)
    requires t in s.tasks
    ensures OnlyMoves(s, Decide(s, t), t) && !Decide(s, t).tasks[t].phase.HoldsLock() && Decide(s, t).lock == None
  {
    hide DecideSpec, Live, Delay;
  }

  lemma StepMoves(s: System, e: Event)
    requires Enabled(s, e) && !e.Tick? && !e.Close?
    ensures OnlyMoves(s, Step(s, e), e.task)
  {
    hide AdvanceStep;
    if e.Advance? {
      AdvanceMoves(s, e.task);
    }
  }

  /** The decision of `connect_inner`, by what it turns into. */
  ghost predicate Decided(s: System, s': System, t: nat)
    requires t in s.tasks && t in s'.tasks
  {
    && s'.lock == None && s'.clock == s.clock && s'.orphaned == s.orphaned
    && s'.failures == s.failures && s'.verdicts == s.verdicts
    && match s'.tasks[t].phase
       case Clearing(own) =>
         && !s.state.inFlight && own == |s.generations| && s'.generations == s.generations + [0]
         && s'.state == s.state.(inFlight := true, recordFailure := s.tasks[t].request, done := Some(own))
         && s'.members == {t} && s'.started == s.clock
         && (s.state.lastFailure.Some? ==> Age(s.clock, s.state.lastFailure.value.at) >= Delay(s.state.attempts))
       case JoinedCheck(n, g) =>
         && s.state.inFlight && s.state.done == Some(n) && n < |s.generations| && g == s.generations[n]
         && s'.state == s.state.(recordFailure := s.state.recordFailure || s.tasks[t].request)
         && s'.members == s.members + {t} && s'.started == s.started && s'.generations == s.generations
       case Returned(outcome) =>
         s'.state == s.state && s'.members == s.members && s'.started == s.started && s'.generations == s.generations
         && outcome != Panicked
       case _ => false
  }

  lemma DecideCases(s: System, t: nat)
    requires t in s.tasks && FlightOk(s)
    ensures Decided(s, Decide(s, t), t)
  {
    var (state, d) := DecideSpec(s.state, Live(s), s.clock, s.tasks[t].request, |s.generations|);
    match d {
      case Lead =>
        hide Live;
      case Join(m) =>
        hide Live;
        assert state == s.state.(recordFailure := s.state.recordFailure || s.tasks[t].request);
      case _ =>
        hide Live;
    }
  }

  lemma AdvanceReleasesLock(s: System, t: nat)
    requires Enabled(s, Advance(t))
    ensures var s' := AdvanceStep(s, t);
            && !s'.tasks[t].phase.HoldsLock()
            && s'.lock == if s.tasks[t].phase.HoldsLock() then None else s.lock
  {
    hide DecideSpec, FailSpec, AbandonSpec, NotifyWaiters, Live, Delay, Min, Decide, Locked, DropStep, JoinedLockedStep;
    match s.tasks[t].phase {
      case Deciding => DecideMoves(s, t);
      case JoinedLocked(n, g) => JoinedReleasesLock(s, t, n, g);
      case Dropping(_) => DropReleasesLock(s, t);
      case _ =>
    }
  }

  lemma JoinedReleasesLock(s: System, t: nat, n: nat, g: nat)
    requires t in s.tasks
    ensures var s' := JoinedLockedStep(s, t, n, g); !s'.tasks[t].phase.HoldsLock() && s'.lock == None
  {}

  lemma DropReleasesLock(s: System, t: nat)
    requires t in s.tasks
    ensures DropStep(s, t).tasks[t].phase.Returned? && DropStep(s, t).lock == s.lock
  {}

  lemma StepKeepsLock(s: System, e: Event)
    requires LockOk(s) && Enabled(s, e)
    ensures LockOk(Step(s, e))
  {
    hide AdvanceStep;
    if e.Advance? {
      AdvanceMoves(s, e.task);
      AdvanceReleasesLock(s, e.task);
    }
  }

  lemma StepKeepsFlight(s: System, e: Event)
    requires FlightOk(s) && Enabled(s, e)
    ensures FlightOk(Step(s, e))
  {
    if e.Advance? {
      AdvanceKeepsFlight(s, e.task);
    }
  }

  lemma AdvanceKeepsFlight(s: System, t: nat)
    requires FlightOk(s) && Enabled(s, Advance(t))
    ensures FlightOk(AdvanceStep(s, t))
  {
    hide Decide, Live;
    if s.tasks[t].phase.Deciding? {
      DecideCases(s, t);
    }
  }

  /** What `Advance` does to the reconnect state, by phase. */
  lemma AdvanceState(s: System, t: nat)
    requires Enabled(s, Advance(t))
    ensures var s', p, p' := AdvanceStep(s, t), s.tasks[t].phase, AdvanceStep(s, t).tasks[t].phase;
            match p
            case Deciding => s' == Decide(s, t)
            case FailLocked(_, _) =>
              && s'.state == FailSpec(s.state, s.clock, p.error) && p' == Notifying(p.own, Failed(p.error))
              && s'.orphaned == s.orphaned
            case PublishLocked(_, _) =>
              s'.state == DEFAULT && p' == Notifying(p.own, Connected(p.dialed)) && s'.orphaned == s.orphaned
            case Dropping(_) => s' == DropStep(s, t)
            case _ =>
              && s'.state == s.state && s'.orphaned == s.orphaned
              && (p'.Leads() <==> p.Leads()) && (p'.Leads() ==> p'.own == p.own)
  {
    hide Decide, FailSpec, DropStep;
  }

  lemma AdvanceKeepsLeader(s: System, t: nat)
    requires FlightOk(s) && LeaderOk(s) && Enabled(s, Advance(t))
    ensures LeaderOk(AdvanceStep(s, t))
  {
    hide AdvanceStep, Decide;
    var s' := AdvanceStep(s, t);
    AdvanceMoves(s, t);
    AdvanceState(s, t);
    DecideCases(s, t);
    assert s.tasks[t].phase.Leads() ==> IsLeader(s, t);
    forall u | u != t ensures IsLeader(s', u) <==> IsLeader(s, u) {}
    if s'.state.inFlight && !s'.orphaned {
      assert IsLeader(s', t) || exists u :: u != t && IsLeader(s, u);
    }
  }

  lemma StepKeepsLeader(s: System, e: Event)
    requires FlightOk(s) && LeaderOk(s) && Enabled(s, e)
    ensures LeaderOk(Step(s, e))
  {
    hide AdvanceStep;
    if e.Advance? {
      AdvanceKeepsLeader(s, e.task);
    } else {
      var s' := Step(s, e);
      forall u ensures IsLeader(s', u) <==> IsLeader(s, u) {}
    }
  }

  /** What `Advance` does to handles and waiters outside `connect_inner`'s decision. */
  ghost predicate HandlesMove(s: System, s': System, t: nat)
    requires t in s.tasks && t in s'.tasks
  {
    var p, p' := s.tasks[t].phase, s'.tasks[t].phase;
    match p
    case FailLocked(n, _) =>
      s'.generations == s.generations && s'.state.done == None && p'.Notifying? && p'.finished == n
    case PublishLocked(n, _) =>
      s'.generations == s.generations && s'.state.done == None && p'.Notifying? && p'.finished == n
    case Notifying(n, _) =>
      s'.generations == NotifyWaiters(s.generations, n) && s'.state.done == s.state.done && p'.Returned?
    case Dropping(_) =>
      && p'.Returned?
      && s'.generations ==
         (if s.lock.None? && s.state.done.Some? then NotifyWaiters(s.generations, s.state.done.value)
          else s.generations)
      && s'.state.done == (if s.lock.None? then None else s.state.done)
    case _ =>
      && s'.generations == s.generations && s'.state.done == s.state.done && !p'.Notifying?
      && (p'.Waits() ==> p.Waits() && p'.notify == p.notify && p'.generation == p.generation)
  }

  lemma AdvanceHandles(s: System, t: nat)
    requires Enabled(s, Advance(t)) && !s.tasks[t].phase.Deciding?
    ensures HandlesMove(s, AdvanceStep(s, t), t)
  {
    hide Decide, NotifyWaiters, Live;
  }

  lemma KeepsWaiters(s: System, s': System, t: nat)
    requires WaitersOk(s) && OnlyMoves(s, s', t) && t in s.tasks && HandlesMove(s, s', t)
    requires FlightOk(s) && (IsLeader(s, t) ==> s.state.done == Some(s.tasks[t].phase.own))
    requires !s.tasks[t].phase.Deciding?
    ensures WaitersOk(s')
  {
    hide OnlyMoves;
    forall u | u in s'.tasks && s'.tasks[u].phase.Waits()
      ensures WaiterOk(s', s'.tasks[u].phase.notify, s'.tasks[u].phase.generation)
    {
      var n, g := s'.tasks[u].phase.notify, s'.tasks[u].phase.generation;
      assert WaiterOk(s, n, g) by { UnmovedTasks(s, s', t); }
      KeepsWaiter(s, s', t, n, g);
    }
    forall u | u in s'.tasks && s'.tasks[u].phase.Notifying? ensures s'.tasks[u].phase.finished < |s'.generations| {
      UnmovedTasks(s, s', t);
    }
  }

  lemma UnmovedTasks(s: System, s': System, t: nat)
    requires OnlyMoves(s, s', t)
    ensures forall u | u in s'.tasks && u != t :: u in s.tasks && s'.tasks[u] == s.tasks[u]
    ensures forall u | u in s.tasks && u != t :: u in s'.tasks && s'.tasks[u] == s.tasks[u]
  {}

  lemma KeepsWaiter(s: System, s': System, t: nat, n: nat, g: nat)
    requires WaiterOk(s, n, g) && OnlyMoves(s, s', t) && t in s.tasks && HandlesMove(s, s', t) && FlightOk(s)
    requires IsLeader(s, t) ==> s.state.done == Some(s.tasks[t].phase.own)
    requires !s.tasks[t].phase.Deciding?
    ensures WaiterOk(s', n, g)
  {
    if s'.generations[n] == g {
      assert s.generations[n] == g;
      if s.state.done == Some(n) {
        if s'.state.done != Some(n) {
          assert AboutToFire(s', t, n);
        }
      } else {
        var u :| AboutToFire(s, u, n);
        assert AboutToFire(s', u, n);
      }
    }
  }

  lemma DecideKeepsWaiters(s: System, t: nat)
    requires FlightOk(s) && WaitersOk(s) && Enabled(s, Advance(t)) && s.tasks[t].phase.Deciding?
    ensures WaitersOk(AdvanceStep(s, t))
  {
    AdvanceMoves(s, t);
    DecideCases(s, t);
    hide Decide;
    var s' := AdvanceStep(s, t);
    hide AdvanceStep;
    UnmovedTasks(s, s', t);
    forall u | u in s'.tasks && s'.tasks[u].phase.Waits()
      ensures WaiterOk(s', s'.tasks[u].phase.notify, s'.tasks[u].phase.generation)
    {
      if u != t {
        var n, g := s.tasks[u].phase.notify, s.tasks[u].phase.generation;
        assert WaiterOk(s, n, g);
        if s.state.done != Some(n) && s.generations[n] == g {
          var v :| AboutToFire(s, v, n);
          assert AboutToFire(s', v, n);
        }
      }
    }
  }

  lemma StepKeepsWaiters(s: System, e: Event)
    requires FlightOk(s) && LeaderOk(s) && WaitersOk(s) && Enabled(s, e)
    ensures WaitersOk(Step(s, e))
  {
    hide AdvanceStep;
    var s' := Step(s, e);
    if e.Advance? {
      if s.tasks[e.task].phase.Deciding? {
        DecideKeepsWaiters(s, e.task);
      } else {
        AdvanceMoves(s, e.task);
        AdvanceHandles(s, e.task);
        KeepsWaiters(s, s', e.task);
      }
    } else {
      forall u, n ensures AboutToFire(s', u, n) <==> AboutToFire(s, u, n) {}
      forall n, g | WaiterOk(s, n, g) ensures WaiterOk(s', n, g) {}
    }
  }

  lemma AnyRequestUnmoved(s: System, s': System, t: nat, members: set<nat>)
    requires OnlyMoves(s, s', t) && members <= s.tasks.Keys
    ensures AnyRequest(s', members) <==> AnyRequest(s, members)
  {}

  /** What `Advance` does to the records of who took part, outside the decision. */
  lemma AdvanceRecords(s: System, t: nat)
    requires Enabled(s, Advance(t)) && !s.tasks[t].phase.Deciding?
    ensures var s' := AdvanceStep(s, t);
            && s'.members == s.members && s'.started == s.started && s'.clock == s.clock
            && (s'.state.inFlight ==> s'.state == s.state)
            && s'.verdicts ==
               s.verdicts + (if s.tasks[t].phase.FailLocked? then [Verdict(s.state.recordFailure, s.members)] else [])
            && s'.failures == (if s.tasks[t].phase.PublishLocked? then []
                               else if s.tasks[t].phase.FailLocked? && s.state.recordFailure then
                                 s.failures + [s.clock]
                               else s.failures)
            && (if s.tasks[t].phase.PublishLocked? then s'.state == DEFAULT
                else if s.tasks[t].phase.FailLocked? then s'.state == FailSpec(s.state, s.clock, s.tasks[t].phase.error)
                else s'.state.attempts == s.state.attempts && s'.state.lastFailure == s.state.lastFailure)
  {
    hide Decide, NotifyWaiters, Live, FailSpec;
    assert s.tasks[t].phase.FailLocked? ==> !FailSpec(s.state, s.clock, s.tasks[t].phase.error).inFlight by {
      FailClears(s.state, s.clock);
    }
  }

  lemma FailClears(state: State, now: nat)
    ensures forall error :: !FailSpec(state, now, error).inFlight
  {}

  lemma AdvanceKeepsVerdicts(s: System, t: nat)
    requires FlightOk(s) && LeaderOk(s) && VerdictsOk(s) && Enabled(s, Advance(t))
    ensures VerdictsOk(AdvanceStep(s, t))
  {
    var s' := AdvanceStep(s, t);
    AdvanceMoves(s, t);
    AnyRequestUnmoved(s, s', t, s.members);
    forall i | 0 <= i < |s.verdicts| { AnyRequestUnmoved(s, s', t, s.verdicts[i].members); }
    assert IsLeader(s, t) ==> s.state.inFlight;
    if s.tasks[t].phase.Deciding? {
      DecideCases(s, t);
      hide Decide;
      assert s' == Decide(s, t);
      hide AdvanceStep;
      assert t in s'.members ==>
          (AnyRequest(s', s'.members) <==> AnyRequest(s', s'.members - {t}) || s.tasks[t].request);
    } else {
      AdvanceRecords(s, t);
      hide AdvanceStep;
    }
  }

  lemma StepKeepsVerdicts(s: System, e: Event)
    requires FlightOk(s) && LeaderOk(s) && VerdictsOk(s) && Enabled(s, e)
    ensures VerdictsOk(Step(s, e))
  {
    hide AdvanceStep;
    if e.Advance? {
      AdvanceKeepsVerdicts(s, e.task);
    } else {
      var s' := Step(s, e);
      if !e.Tick? && !e.Close? {
        StepMoves(s, e);
        AnyRequestUnmoved(s, s', e.task, s.members);
        forall i | 0 <= i < |s.verdicts| { AnyRequestUnmoved(s, s', e.task, s.verdicts[i].members); }
      }
    }
  }

  lemma FailSpaces(failures: seq<nat>, now: nat)
    requires Spaced(failures) && (|failures| > 0 ==> now >= failures[|failures| - 1] + Delay(|failures|))
    ensures Spaced(failures + [now])
  {}

  lemma DelaySaturates(n: nat)
    ensures Delay(Min(n, U32_MAX)) == Delay(n)
  {}

  lemma AdvanceKeepsBackoff(s: System, t: nat)
    requires FlightOk(s) && LeaderOk(s) && BackoffOk(s) && Enabled(s, Advance(t))
    ensures BackoffOk(AdvanceStep(s, t))
  {
    var s' := AdvanceStep(s, t);
    DelaySaturates(|s.failures|);
    hide Delay;
    assert IsLeader(s, t) ==> s.state.inFlight;
    if s.tasks[t].phase.Deciding? {
      DecideCases(s, t);
      hide Decide;
      assert s' == Decide(s, t);
      hide AdvanceStep, Spaced;
    } else {
      AdvanceRecords(s, t);
      hide AdvanceStep;
      if s.tasks[t].phase.FailLocked? {
        FailSpaces(s.failures, s.clock);
      }
      hide Spaced;
    }
  }

  lemma StepKeepsBackoff(s: System, e: Event)
    requires FlightOk(s) && LeaderOk(s) && BackoffOk(s) && Enabled(s, e)
    ensures BackoffOk(Step(s, e))
  {
    hide AdvanceStep, Spaced, Delay;
    if e.Advance? {
      AdvanceKeepsBackoff(s, e.task);
    }
  }

  lemma NoPanicAhead(s: System, t: nat)
    requires FlightOk(s) && NoPanic(s) && Enabled(s, Advance(t))
    ensures var p := AdvanceStep(s, t).tasks[t].phase;
            p != Returned(Panicked) && (p.Notifying? ==> !p.outcome.Panicked?)
  {
    if s.tasks[t].phase.Deciding? {
      DecideCases(s, t);
    }
    hide Decide, FailSpec, AbandonSpec, NotifyWaiters, Live, FlightOk;
  }

  lemma AdvanceNeverPanics(s: System, t: nat)
    requires FlightOk(s) && NoPanic(s) && Enabled(s, Advance(t))
    ensures NoPanic(AdvanceStep(s, t))
  {
    hide AdvanceStep, FlightOk;
    AdvanceMoves(s, t);
    NoPanicAhead(s, t);
  }

  lemma StepNeverPanics(s: System, e: Event)
    requires FlightOk(s) && NoPanic(s) && Enabled(s, e)
    ensures NoPanic(Step(s, e))
  {
    hide AdvanceStep;
    if e.Advance? {
      AdvanceNeverPanics(s, e.task);
    }
  }

  lemma StepKeepsNotifiers(s: System, e: Event)
    requires FlightOk(s) && LeaderOk(s) && WaitersOk(s) && NotifiersOk(s) && Enabled(s, e)
    ensures NotifiersOk(Step(s, e))
  {
    hide AdvanceStep;
    if e.Advance? {
      var s', t := AdvanceStep(s, e.task), e.task;
      AdvanceMoves(s, t);
      UnmovedTasks(s, s', t);
      if s.tasks[t].phase.Deciding? {
        DecideCases(s, t);
        AdvanceState(s, t);
        hide Decide;
      } else {
        AdvanceHandles(s, t);
      }
    }
  }

  // ---------------------------------------------------------------- every run

  ghost function Next(s: System, e: Event): System {
    if Enabled(s, e) then Step(s, e) else s
  }

  /** The state after `events`; an event that cannot happen changes nothing. */
  ghost function From(s: System, events: seq<Event>): System {
    if events == [] then s else Next(From(s, events[..|events| - 1]), events[|events| - 1])
  }

  ghost function Run(events: seq<Event>): System {
    From(INIT, events)
  }

  lemma {:induction false} RunKeepsInv(events: seq<Event>)
    ensures Inv(Run(events))
  {
    if events != [] {
      var s, e := Run(events[..|events| - 1]), events[|events| - 1];
      RunKeepsInv(events[..|events| - 1]);
      if Enabled(s, e) {
        hide Step, LockOk, FlightOk, LeaderOk, WaitersOk, VerdictsOk, BackoffOk, NoPanic, NotifiersOk;
        StepKeepsLock(s, e);
        StepKeepsFlight(s, e);
        StepKeepsLeader(s, e);
        StepKeepsWaiters(s, e);
        StepKeepsNotifiers(s, e);
        StepKeepsVerdicts(s, e);
        StepKeepsBackoff(s, e);
        StepNeverPanics(s, e);
      }
    }
  }

  /** At most one task dials, it owns the attempt in flight, and unless a cancelled leader lost the
      race for the lock an attempt in flight has a leader. */
  lemma OneLeader(events: seq<Event>, t: nat, u: nat)
    ensures var s := Run(events);
            && (IsLeader(s, t) && IsLeader(s, u) ==> t == u)
            && (IsLeader(s, t) ==> s.state.inFlight && s.state.done == Some(s.tasks[t].phase.own))
            && (s.state.inFlight && !s.orphaned ==> exists l :: IsLeader(s, l))
  {
    RunKeepsInv(events);
  }

  /** "in-flight reconnect always has a completion notify": the `expect` never fires. */
  lemma ExpectNeverFires(events: seq<Event>, t: nat)
    ensures var s := Run(events);
            && (s.state.inFlight ==> s.state.done.Some?)
            && (t in s.tasks ==> s.tasks[t].phase != Returned(Panicked))
  {
    RunKeepsInv(events);
  }

  /** A joined caller that was not woken waits on the attempt in flight, or its leader is about to wake it. */
  lemma CompletionIsNotMissed(events: seq<Event>, t: nat)
    ensures var s := Run(events);
            t in s.tasks && s.tasks[t].phase.Waits() ==>
              var n, g := s.tasks[t].phase.notify, s.tasks[t].phase.generation;
              && n < |s.generations|
              && (s.generations[n] > g || (s.state.inFlight && s.state.done == Some(n))
                  || exists u :: AboutToFire(s, u, n))
  {
    RunKeepsInv(events);
    var s := Run(events);
    if t in s.tasks && s.tasks[t].phase.Waits() {
      assert WaiterOk(s, s.tasks[t].phase.notify, s.tasks[t].phase.generation);
    }
  }

  /** Every failed dial armed the backoff exactly if a `connect` led or joined it. */
  lemma RecordedIffRequested(events: seq<Event>, i: nat)
    requires i < |Run(events).verdicts|
    ensures var s := Run(events);
            s.verdicts[i].recorded <==> exists t :: t in s.verdicts[i].members && t in s.tasks && s.tasks[t].request
  {
    RunKeepsInv(events);
    assert AnyRequest(Run(events), Run(events).verdicts[i].members) <==> Run(events).verdicts[i].recorded;
  }

  /** Since the last success, `attempts` counts the recorded failures, and the i-th and (i+1)-th are at
      least min(2^min(i,5), 30) seconds apart: n of them take 30(n - 4) seconds. */
  lemma BackoffHolds(events: seq<Event>)
    ensures var s := Run(events);
            && s.state.attempts == Min(|s.failures|, U32_MAX)
            && (forall i | 0 < i < |s.failures| :: s.failures[i] - s.failures[i - 1] >= DelaySeconds(i) * SECOND)
            && (|s.failures| >= 5 ==> s.failures[|s.failures| - 1] - s.failures[0] >= 30 * (|s.failures| - 4) * SECOND)
  {
    RunKeepsInv(events);
    var failures := Run(events).failures;
    hide Run, LockOk, FlightOk, LeaderOk, WaitersOk, VerdictsOk, NoPanic, NotifiersOk;
    if |failures| >= 5 {
      SpacedSpan(failures);
    }
  }

  /** `connect_inner` dials, joins or fails fast strictly by the shared state. */
  lemma NoDialDuringBackoff(events: seq<Event>, t: nat)
    requires Enabled(Run(events), Advance(t)) && Run(events).tasks[t].phase.Deciding?
    ensures var s := Run(events); var s' := AdvanceStep(s, t);
            IsLeader(s', t) ==>
              !s.state.inFlight && Live(s).None? &&
              (|s.failures| > 0 ==> s.clock >= s.failures[|s.failures| - 1] + Delay(|s.failures|))
  {
    RunKeepsInv(events);
    var s := Run(events);
    hide Run, LockOk, LeaderOk, WaitersOk, VerdictsOk, NoPanic, NotifiersOk;
    DecideCases(s, t);
    DelaySaturates(|s.failures|);
    hide Delay;
  }

  // ---------------------------------------------------------------- a cancelled leader

  /** An attempt is marked in flight but nobody will finish it. */
  ghost predicate Wedged(s: System) {
    && s.state.inFlight
    && (forall t :: !IsLeader(s, t))
    && (forall t | t in s.tasks && s.tasks[t].phase.Notifying? :: s.state.done != Some(s.tasks[t].phase.finished))
  }

  lemma StepKeepsWedge(s: System, e: Event)
    requires FlightOk(s) && WaitersOk(s) && Wedged(s) && Enabled(s, e)
    ensures var s' := Step(s, e);
            && Wedged(s') && s'.state.done == s.state.done && s'.connection == s.connection
            && |s.generations| <= |s'.generations|
            && s'.generations[s.state.done.value] == s.generations[s.state.done.value]
  {
    var s' := Step(s, e);
    if e.Advance? {
      var t := e.task;
      assert !IsLeader(s, t);
      AdvanceMoves(s, t);
      UnmovedTasks(s, s', t);
      AdvanceState(s, t);
      if s.tasks[t].phase.Deciding? {
        DecideCases(s, t);
        WedgedConnection(s, t);
        hide Decide;
      } else {
        AdvanceHandles(s, t);
        WedgedConnection(s, t);
      }
      hide AdvanceStep;
      forall u ensures !IsLeader(s', u) { assert !IsLeader(s, u); }
    } else {
      hide AdvanceStep;
      forall u ensures !IsLeader(s', u) { assert !IsLeader(s, u); }
    }
  }

  lemma WedgedConnection(s: System, t: nat)
    requires Enabled(s, Advance(t)) && !IsLeader(s, t)
    ensures AdvanceStep(s, t).connection == s.connection
  {}

  lemma {:induction false} WedgePersists(s: System, events: seq<Event>)
    requires Inv(s) && Wedged(s)
    ensures var s' := From(s, events);
            && Inv(s') && Wedged(s') && s'.state.done == s.state.done && s'.connection == s.connection
            && |s.generations| <= |s'.generations|
            && s'.generations[s.state.done.value] == s.generations[s.state.done.value]
  {
    if events != [] {
      var u, e := From(s, events[..|events| - 1]), events[|events| - 1];
      WedgePersists(s, events[..|events| - 1]);
      if Enabled(u, e) {
        hide Step, LockOk, LeaderOk, WaitersOk, VerdictsOk, BackoffOk, NoPanic, NotifiersOk;
        StepKeepsWedge(u, e);
        StepKeepsLock(u, e);
        StepKeepsFlight(u, e);
        StepKeepsLeader(u, e);
        StepKeepsWaiters(u, e);
        StepKeepsNotifiers(u, e);
        StepKeepsVerdicts(u, e);
        StepKeepsBackoff(u, e);
        StepNeverPanics(u, e);
      }
    }
  }

  /** The documented promise that the guard clears an abandoned attempt holds exactly if `try_lock` succeeds:
      then the flag is cleared and its waiters are woken. Otherwise the flag stays set in every later
      state, nobody ever dials again and no waiter of the attempt is ever woken. */
  lemma CancelClearsIffTryLock(events: seq<Event>, t: nat, more: seq<Event>)
    requires t in Run(events).tasks && Run(events).tasks[t].phase.Dropping?
    ensures var s := Run(events); var s' := AdvanceStep(s, t); var n := s.tasks[t].phase.own;
            && s.state.done == Some(n) && n < |s.generations| <= |s'.generations|
            && if s.lock.None? then !s'.state.inFlight && s'.generations[n] == s.generations[n] + 1
            else
              var later := From(s', more);
              && later.state.inFlight && later.connection == s.connection
              && (forall u :: !IsLeader(later, u))
              && |s.generations| <= |later.generations| && later.generations[n] == s.generations[n]
  {
    RunKeepsInv(events);
    var s, s' := Run(events), AdvanceStep(Run(events), t);
    assert IsLeader(s, t);
    AdvanceMoves(s, t);
    if s.lock.Some? {
      assert s' == Step(s, Advance(t)) && s'.state == s.state;
      assert s'.connection == s.connection && s'.generations == s.generations;
      forall u ensures !IsLeader(s', u) { assert IsLeader(s', u) ==> IsLeader(s, u); }
      RunStep(events, Advance(t));
      RunKeepsInv(events + [Advance(t)]);
      assert Wedged(s');
      WedgePersists(s', more);
    }
  }

  lemma RunStep(events: seq<Event>, e: Event)
    ensures Run(events + [e]) == Next(Run(events), e)
  {
    assert (events + [e])[..|events|] == events;
  }

  /** Each section of the machine changes the shared fields as the client's method for it does. */
  lemma SectionsMatch(s: System, t: nat)
    requires Enabled(s, Advance(t))
    ensures var s', d := AdvanceStep(s, t), DecideSpec(s.state, Live(s), s.clock, s.tasks[t].request, |s.generations|);
            match s.tasks[t].phase
            case Deciding =>
              && s'.state == d.0 && s'.connection == s.connection
              && s'.generations == s.generations + (if d.1.Lead? then [0] else [])
            case FailLocked(_, error) =>
              && s'.state == FailSpec(s.state, s.clock, error)
              && s'.generations == s.generations && s'.connection == s.connection
            case PublishLocked(_, c) =>
              s'.state == DEFAULT && s'.connection == Some(c) && s'.generations == s.generations
            case Dropping(_) =>
              s'.connection == s.connection &&
              if s.lock.Some? then s'.state == s.state && s'.generations == s.generations
              else
                && s'.state == AbandonSpec(s.state)
                && s'.generations ==
                   if s.state.done.Some? then NotifyWaiters(s.generations, s.state.done.value) else s.generations
            case Clearing(_) => s'.state == s.state && s'.connection == None && s'.generations == s.generations
            case Notifying(n, _) =>
              s'.state == s.state && s'.connection == s.connection && s'.generations == NotifyWaiters(s.generations, n)
            case _ => s'.state == s.state && s'.connection == s.connection && s'.generations == s.generations
  {
    hide DecideSpec, FailSpec, AbandonSpec, NotifyWaiters, Live, Delay;
    if s.tasks[t].phase.Deciding? {
      DecideTouches(s, t);
    }
    hide Decide;
  }

  lemma DecideTouches(s: System, t: nat)
    requires t in s.tasks
    ensures var d := DecideSpec(s.state, Live(s), s.clock, s.tasks[t].request, |s.generations|);
            var s' := Decide(s, t);
            && s'.state == d.0 && s'.generations == s.generations + (if d.1.Lead? then [0] else [])
            && s'.connection == s.connection
  {
    hide Live, Delay;
  }

  /** A woken caller retries if and only if no failure has been recorded since the last success; otherwise it returns
      that failure, even if the attempt it waited for was merely abandoned and the failure's backoff is over. */
  lemma WokenRetriesIff(events: seq<Event>, t: nat)
    requires t in Run(events).tasks && Run(events).tasks[t].phase.WokenLocked?
    ensures var s, p := Run(events), AdvanceStep(Run(events), t).tasks[t].phase;
            && (p == WantLock <==> s.failures == [])
            && (s.failures != [] ==>
                  s.state.lastFailure.Some? && p == Returned(Failed(s.state.lastFailure.value.error)))
  {
    RunKeepsInv(events);
    hide Run, LockOk, FlightOk, LeaderOk, WaitersOk, VerdictsOk, NoPanic, NotifiersOk;
  }
}
