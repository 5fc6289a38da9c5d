/** server/src/udp.rs, `UdpEndpointPool` under concurrency: any number of `get_or_create` and `remove` calls with
    failures, cancellation and evictions at any moment. One event takes and releases one lock, or uses the cache once.

    `log` records insertions into and removals from the cache; no step reads it. */
module Endpoints {
  import opened Common

  datatype Outcome = Existing(endpoint: nat) | New(endpoint: nat) | Failed

  datatype Phase =
    | Checking
    | Arbitrating
    | Announcing(own: nat)
    | DoubleChecking(own: nat)
    | Creating(own: nat)
    | Inserting(own: nat, endpoint: nat)
    | Releasing(own: nat, outcome: Outcome)
    | Unmapping(own: nat, outcome: Outcome)
    | Firing(own: nat, outcome: Outcome)
    | Joining
    | Rechecking(notify: nat)
    | Subscribing(notify: nat)
    | Parked(notify: nat, generation: nat)
    | Done(outcome: Outcome)
  {
    /** Between the insertion into `creating` and its removal by the guard. */
    predicate Creates() { Announcing? || DoubleChecking? || Creating? || Inserting? || Releasing? }
    /** The task will fire `own` when its guard is dropped. */
    predicate Guards() { Creates() || Unmapping? || Firing? }
    /** The double check found no endpoint. */
    predicate Confirmed() { Creating? || Inserting? }
  }

  datatype Task = Task(addr: nat, phase: Phase)

  datatype Mark = Created(addr: nat, endpoint: nat, task: nat) | Gone(addr: nat)

  datatype System = System(
    cache: map<nat, nat>,
    creating: set<nat>,
    notifyMap: map<nat, nat>,
    generations: seq<nat>,
    tasks: map<nat, Task>,
    log: seq<Mark>)

  const INIT := System(map[], {}, map[], [], map[], [])

  datatype Event =
    | Begin(task: nat, addr: nat)
    | Advance(task: nat)
    | Bound(task: nat, endpoint: nat)
    | Refused(task: nat)
    | Cancel(task: nat)
    | Evict(addr: nat)

  predicate Enabled(s: System, e: Event) {
    match e
    case Begin(t, _) => t !in s.tasks
    case Advance(t) => t in s.tasks && CanAdvance(s, s.tasks[t])
    case Bound(t, _) => t in s.tasks && s.tasks[t].phase.Creating?
    case Refused(t) => t in s.tasks && s.tasks[t].phase.Creating?
    case Cancel(t) => t in s.tasks && (s.tasks[t].phase.Creating? || s.tasks[t].phase.Parked?)
    case Evict(_) => true
  }

  predicate CanAdvance(s: System, task: Task) {
    match task.phase
    case Parked(n, g) => n < |s.generations| && s.generations[n] > g
    case Subscribing(n) => n < |s.generations|
    case Firing(n, _) => n < |s.generations|
    case Creating(_) => false
    case Done(_) => false
    case _ => true
  }

  function Goto(s: System, t: nat, p: Phase): System
    requires t in s.tasks
  {
    s.(tasks := s.tasks[t := s.tasks[t].(phase := p)])
  }

  function Arbitrate(s: System, t: nat): System
    requires t in s.tasks
  {
    var addr := s.tasks[t].addr;
    if addr !in s.creating then
      Goto(s.(creating := s.creating + {addr}, generations := s.generations + [0]), t, Announcing(|s.generations|))
    else Goto(s, t, Joining)
  }

  function Join(s: System, t: nat): System
    requires t in s.tasks
  {
    var addr := s.tasks[t].addr;
    if addr in s.notifyMap then Goto(s, t, Rechecking(s.notifyMap[addr]))
    else Goto(s.(notifyMap := s.notifyMap[addr := |s.generations|], generations := s.generations + [0]), t,
        Rechecking(|s.generations|))
  }

  function AdvanceStep(s: System, t: nat): System
    requires t in s.tasks && CanAdvance(s, s.tasks[t])
  {
    var addr := s.tasks[t].addr;
    match s.tasks[t].phase
    case Checking => Goto(s, t, if addr in s.cache then Done(Existing(s.cache[addr])) else Arbitrating)
    case Arbitrating => Arbitrate(s, t)
    case Announcing(n) => Goto(s.(notifyMap := s.notifyMap[addr := n]), t, DoubleChecking(n))
    case DoubleChecking(n) => Goto(s, t, if addr in s.cache then Releasing(n, Existing(s.cache[addr])) else Creating(n))
    case Inserting(n, e) =>
      Goto(s.(cache := s.cache[addr := e], log := s.log + [Created(addr, e, t)]), t, Releasing(n, New(e)))
    case Releasing(n, r) => Goto(s.(creating := s.creating - {addr}), t, Unmapping(n, r))
    case Unmapping(n, r) => Goto(s.(notifyMap := s.notifyMap - {addr}), t, Firing(n, r))
    case Firing(n, r) => Goto(s.(generations := s.generations[n := s.generations[n] + 1]), t, Done(r))
    case Joining => Join(s, t)
    case Rechecking(n) => Goto(s, t, if addr in s.creating then Subscribing(n) else Checking)
    case Subscribing(n) => Goto(s, t, Parked(n, s.generations[n]))
    case Parked(_, _) => Goto(s, t, Checking)
  }

  function Step(s: System, e: Event): System
    requires Enabled(s, e)
  {
    match e
    case Begin(t, addr) => s.(tasks := s.tasks[t := Task(addr, Checking)])
    case Advance(t) => AdvanceStep(s, t)
    case Bound(t, endpoint) => Goto(s, t, Inserting(s.tasks[t].phase.own, endpoint))
    case Refused(t) => Goto(s, t, Releasing(s.tasks[t].phase.own, Failed))
    case Cancel(t) => Goto(s, t, if s.tasks[t].phase.Creating? then Releasing(s.tasks[t].phase.own, Failed)
        else Done(Failed))
    case Evict(addr) => if addr in s.cache then s.(cache := s.cache - {addr}, log := s.log + [Gone(addr)]) else s
  }

  // ---------------------------------------------------------------- invariants

  ghost predicate CreatesFor(s: System, t: nat, addr: nat) {
    t in s.tasks && s.tasks[t].phase.Creates() && s.tasks[t].addr == addr
  }

  /** `creating` holds exactly the addresses with a creator, and each has only one. */
  ghost predicate CreatorsOk(s: System) {
    && (forall t, a | CreatesFor(s, t, a) :: a in s.creating)
    && (forall a | a in s.creating :: exists t :: CreatesFor(s, t, a))
    && (forall t, u, a | CreatesFor(s, t, a) && CreatesFor(s, u, a) :: t == u)
  }

  /** A creator past its double check still sees an empty slot. */
  ghost predicate SlotsOk(s: System) {
    forall t | t in s.tasks && s.tasks[t].phase.Confirmed() :: s.tasks[t].addr !in s.cache
  }

  /** What the log says about `addr`; `None` if it creates over an existing endpoint or removes a missing one. */
  ghost function Replay(log: seq<Mark>, addr: nat): Option<Option<nat>> {
    if log == [] then Some(None)
    else
      var before := Replay(log[..|log| - 1], addr);
      match log[|log| - 1]
      case Created(a, e, _) => if a != addr then before else if before == Some(None) then Some(Some(e)) else None
      case Gone(a) => if a != addr then before else if before.Some? && before.value.Some? then Some(None) else None
  }

  ghost predicate LogOk(s: System) {
    forall a :: Replay(s.log, a) == Some(if a in s.cache then Some(s.cache[a]) else None)
  }

  /** A `New` result is an insertion by that very task; an `Existing` one was inserted by some task. */
  ghost predicate OutcomeOk(s: System, t: nat, addr: nat, r: Outcome) {
    match r
    case New(e) => Created(addr, e, t) in s.log
    case Existing(e) => exists u :: Created(addr, e, u) in s.log
    case Failed => true
  }

  ghost predicate ResultsOk(s: System) {
    && (forall a | a in s.cache :: exists u :: Created(a, s.cache[a], u) in s.log)
    && (forall t | t in s.tasks :: PhaseOk(s, t))
  }

  ghost predicate PhaseOk(s: System, t: nat)
    requires t in s.tasks
  {
    match s.tasks[t].phase
    case Releasing(_, r) => OutcomeOk(s, t, s.tasks[t].addr, r)
    case Unmapping(_, r) => OutcomeOk(s, t, s.tasks[t].addr, r)
    case Firing(_, r) => OutcomeOk(s, t, s.tasks[t].addr, r)
    case Done(r) => OutcomeOk(s, t, s.tasks[t].addr, r)
    case _ => true
  }

  ghost predicate Owns(s: System, t: nat, n: nat) {
    t in s.tasks && s.tasks[t].phase.Guards() && s.tasks[t].phase.own == n
  }

  ghost predicate HandlesOk(s: System) {
    && (forall t: nat, n: nat | Owns(s, t, n) :: n < |s.generations|)
    && (forall a | a in s.notifyMap :: s.notifyMap[a] < |s.generations|)
    && (forall t | t in s.tasks && (s.tasks[t].phase.Rechecking? || s.tasks[t].phase.Subscribing?
        || s.tasks[t].phase.Parked?) ::
          s.tasks[t].phase.notify < |s.generations|)
    && (forall t | t in s.tasks && s.tasks[t].phase.Parked? ::
          s.tasks[t].phase.generation <= s.generations[s.tasks[t].phase.notify])
  }

  ghost predicate Inv(s: System) {
    CreatorsOk(s) && SlotsOk(s) && LogOk(s) && ResultsOk(s) && HandlesOk(s)
  }

  // ---------------------------------------------------------------- one step

  ghost predicate OnlyMoves(s: System, s': System, t: nat) {
    && t in s'.tasks
    && s'.tasks.Keys == s.tasks.Keys + {t}
    && (forall u | u in s.tasks && u != t :: s'.tasks[u] == s.tasks[u])
    && (t in s.tasks ==> s'.tasks[t].addr == s.tasks[t].addr)
  }

  lemma StepMoves(s: System, e: Event)
    requires Enabled(s, e) && !e.Evict?
    ensures OnlyMoves(s, Step(s, e), e.task)
  {}

  lemma StepKeepsHandles(s: System, e: Event)
    requires HandlesOk(s) && Enabled(s, e)
    ensures HandlesOk(Step(s, e))
  {
    hide Step, Owns;
    OwnedStaysAllocated(s, e);
    StepAnnounces(s, e);
    if e.Evict? {
      EvictKeepsTasks(s, e);
    } else {
      StepFires(s, e);
      StepMoves(s, e);
      StepJoins(s, e);
    }
  }

  lemma EvictKeepsTasks(s: System, e: Event)
    requires e.Evict?
    ensures Step(s, e).tasks == s.tasks && Step(s, e).generations == s.generations
  {}

  lemma OwnedStaysAllocated(s: System, e: Event)
    requires HandlesOk(s) && Enabled(s, e)
    ensures forall t: nat, n: nat | Owns(Step(s, e), t, n) :: n < |Step(s, e).generations|
  {
    var s' := Step(s, e);
    if !e.Evict? {
      StepFires(s, e);
      StepOwn(s, e);
      StepMoves(s, e);
    }
    assert e.Evict? ==> s'.tasks == s.tasks && s'.generations == s.generations;
    hide Step, Enabled;
    forall t: nat, n: nat | Owns(s', t, n) ensures n < |s'.generations| {
      if !Owns(s, t, n) {
        assert !e.Evict? && t == e.task && n == |s.generations|;
        StepAllocates(s, e);
      }
    }
  }

  lemma StepAllocates(s: System, e: Event)
    requires Enabled(s, e) && !e.Evict?
    ensures var s', t := Step(s, e), e.task;
            s'.tasks[t].phase.Guards() && !(t in s.tasks && s.tasks[t].phase.Guards()) ==>
                |s.generations| < |s'.generations|
  {}

  /** Announced handles are allocated. */
  lemma StepAnnounces(s: System, e: Event)
    requires HandlesOk(s) && Enabled(s, e)
    ensures var s' := Step(s, e);
            forall a | a in s'.notifyMap :: s'.notifyMap[a] < |s'.generations|
  {
    if e.Advance? && s.tasks[e.task].phase.Announcing? {
      assert Owns(s, e.task, s.tasks[e.task].phase.own);
    }
    hide Owns;
  }

  /** A joined handle is allocated, and a waiter has captured its current generation. */
  ghost predicate JoinedOk(s: System, p: Phase) {
    && (p.Rechecking? || p.Subscribing? || p.Parked? ==> p.notify < |s.generations|)
    && (p.Parked? ==> p.generation == s.generations[p.notify])
  }

  lemma StepJoins(s: System, e: Event)
    requires HandlesOk(s) && Enabled(s, e) && !e.Evict?
    ensures JoinedOk(Step(s, e), Step(s, e).tasks[e.task].phase)
  {
    hide AdvanceStep;
    if e.Advance? {
      AdvanceJoins(s, e.task);
    }
  }

  lemma AdvanceJoins(s: System, t: nat)
    requires HandlesOk(s) && Enabled(s, Advance(t))
    ensures JoinedOk(AdvanceStep(s, t), AdvanceStep(s, t).tasks[t].phase)
  {
    hide Owns;
  }

  lemma StepCreating(s: System, e: Event)
    requires Enabled(s, e) && !e.Evict?
    ensures var s', t := Step(s, e), e.task;
            var creates := t in s.tasks && s.tasks[t].phase.Creates();
            var creates' := s'.tasks[t].phase.Creates();
            var addr := s'.tasks[t].addr;
            if creates' && !creates then addr !in s.creating && s'.creating == s.creating + {addr}
            else if creates && !creates' then s'.creating == s.creating - {addr}
            else s'.creating == s.creating
  {}

  lemma StepKeepsCreators(s: System, e: Event)
    requires CreatorsOk(s) && Enabled(s, e)
    ensures CreatorsOk(Step(s, e))
  {
    var s' := Step(s, e);
    if e.Evict? {
      forall t, a ensures CreatesFor(s', t, a) <==> CreatesFor(s, t, a) {}
    } else {
      var t := e.task;
      StepMoves(s, e);
      StepCreating(s, e);
      hide Step;
      var addr := s'.tasks[t].addr;
      assert forall u, a | u != t :: CreatesFor(s', u, a) <==> CreatesFor(s, u, a);
      assert forall a | a != addr :: !CreatesFor(s', t, a) && !CreatesFor(s, t, a);
      assert CreatesFor(s', t, addr) <==> s'.tasks[t].phase.Creates();
      assert CreatesFor(s, t, addr) <==> t in s.tasks && s.tasks[t].phase.Creates();
      hide CreatesFor, OnlyMoves;
      forall a | a in s'.creating ensures exists u :: CreatesFor(s', u, a) {
        if a in s.creating {
          var u :| CreatesFor(s, u, a);
          assert CreatesFor(s', u, a) || CreatesFor(s', t, a);
        } else {
          assert CreatesFor(s', t, a);
        }
      }
    }
  }

  lemma StepCache(s: System, e: Event)
    requires Enabled(s, e)
    ensures var s' := Step(s, e);
            if e.Evict? && e.addr in s.cache then s'.cache == s.cache - {e.addr} && s'.log == s.log + [Gone(e.addr)]
                && s'.tasks == s.tasks
            else if e.Advance? && s.tasks[e.task].phase.Inserting? then
              var Task(addr, Inserting(n, x)) := s.tasks[e.task];
              s'.cache == s.cache[addr := x] && s'.log == s.log + [Created(addr, x, e.task)]
                  && s'.tasks[e.task].phase == Releasing(n, New(x))
            else s'.cache == s.cache && s'.log == s.log
  {}

  lemma StepConfirms(s: System, e: Event)
    requires Enabled(s, e) && !e.Evict?
    ensures var s', t := Step(s, e), e.task;
            s'.tasks[t].phase.Confirmed() ==>
              t in s.tasks && s.tasks[t].phase.Creates()
                  && (s.tasks[t].phase.Confirmed() || s.tasks[t].addr !in s.cache) && s'.cache == s.cache
  {}

  lemma StepKeepsSlots(s: System, e: Event)
    requires CreatorsOk(s) && SlotsOk(s) && Enabled(s, e)
    ensures SlotsOk(Step(s, e))
  {
    var s' := Step(s, e);
    StepCache(s, e);
    if !e.Evict? {
      StepMoves(s, e);
      StepConfirms(s, e);
    }
    assert e.Evict? ==> s'.tasks == s.tasks;
    hide Step;
    forall t | t in s'.tasks && s'.tasks[t].phase.Confirmed() ensures s'.tasks[t].addr !in s'.cache {
      if e.Advance? && s.tasks[e.task].phase.Inserting? && t != e.task {
        assert CreatesFor(s, t, s.tasks[t].addr) && CreatesFor(s, e.task, s.tasks[e.task].addr);
      }
    }
  }

  lemma ReplaySnoc(log: seq<Mark>, m: Mark, addr: nat)
    ensures Replay(log + [m], addr) ==
            var before := Replay(log, addr);
            match m
            case Created(a, e, _) => if a != addr then before else if before == Some(None) then Some(Some(e)) else None
            case Gone(a) =>
              if a != addr then before else if before.Some? && before.value.Some? then Some(None) else None
  {
    assert (log + [m])[..|log|] == log;
  }

  lemma StepKeepsLog(s: System, e: Event)
    requires SlotsOk(s) && LogOk(s) && Enabled(s, e)
    ensures LogOk(Step(s, e))
  {
    var s' := Step(s, e);
    StepCache(s, e);
    hide Step;
    forall a ensures Replay(s'.log, a) == Some(if a in s'.cache then Some(s'.cache[a]) else None) {
      if s'.log != s.log {
        ReplaySnoc(s.log, s'.log[|s.log|], a);
      }
    }
  }

  lemma StepOutcome(s: System, e: Event)
    requires ResultsOk(s) && Enabled(s, e) && !e.Evict?
    ensures PhaseOk(Step(s, e), e.task)
  {
    var s', t := Step(s, e), e.task;
    StepCache(s, e);
    if t in s.tasks {
      assert PhaseOk(s, t);
      if e.Advance? && s.tasks[t].phase.Inserting? {
        assert s'.log[|s.log|] == Created(s.tasks[t].addr, s.tasks[t].phase.endpoint, t);
      }
    }
  }

  lemma StepKeepsResults(s: System, e: Event)
    requires ResultsOk(s) && Enabled(s, e)
    ensures ResultsOk(Step(s, e))
  {
    var s' := Step(s, e);
    StepCache(s, e);
    if !e.Evict? {
      StepMoves(s, e);
      StepOutcome(s, e);
    }
    assert e.Evict? ==> s'.tasks == s.tasks;
    hide Step;
    assert s.log <= s'.log;
    forall m | m in s.log ensures m in s'.log { var i :| 0 <= i < |s.log| && s.log[i] == m; assert s'.log[i] == m; }
    forall a | a in s'.cache ensures exists u :: Created(a, s'.cache[a], u) in s'.log {
      if a in s.cache && s'.cache[a] == s.cache[a] {
        var u :| Created(a, s.cache[a], u) in s.log;
        assert Created(a, s'.cache[a], u) in s'.log;
      } else {
        assert s'.log[|s.log|] == Created(a, s'.cache[a], e.task);
      }
    }
    forall u | u in s'.tasks ensures PhaseOk(s', u) {
      if u in s.tasks && s'.tasks[u] == s.tasks[u] {
        assert PhaseOk(s, u);
        OutcomePersists(s, s', u, s.tasks[u].addr);
      }
    }
  }

  lemma OutcomePersists(s: System, s': System, t: nat, addr: nat)
    requires forall m | m in s.log :: m in s'.log
    ensures forall r | OutcomeOk(s, t, addr, r) :: OutcomeOk(s', t, addr, r)
  {}

  // ---------------------------------------------------------------- every run

  ghost function Next(s: System, e: Event): System {
    if Enabled(s, e) then Step(s, e) else s
  }

  /** The state after `events` from `s`; an event that cannot happen changes nothing. */
  ghost function From(s: System, events: seq<Event>): System {
    if events == [] then s else Next(From(s, events[..|events| - 1]), events[|events| - 1])
  }

  ghost function Run(events: seq<Event>): System {
    From(INIT, events)
  }

  lemma FromSnoc(s: System, events: seq<Event>, e: Event)
    ensures From(s, events + [e]) == Next(From(s, events), e)
  {
    assert (events + [e])[..|events|] == events;
  }

  lemma {:induction false} RunKeepsInv(events: seq<Event>)
    ensures Inv(Run(events))
  {
    if events != [] {
      var s, e := Run(events[..|events| - 1]), events[|events| - 1];
      RunKeepsInv(events[..|events| - 1]);
      if Enabled(s, e) {
        hide Step, CreatorsOk, SlotsOk, LogOk, ResultsOk, HandlesOk;
        StepKeepsHandles(s, e);
        StepKeepsCreators(s, e);
        StepKeepsSlots(s, e);
        StepKeepsLog(s, e);
        StepKeepsResults(s, e);
      }
    }
  }

  /** Per address at most one task is between its `creating` insert and its guard's drop. */
  lemma OneCreatorPerAddress(events: seq<Event>, t: nat, u: nat, addr: nat)
    ensures var s := Run(events);
            && (CreatesFor(s, t, addr) && CreatesFor(s, u, addr) ==> t == u)
            && (addr in s.creating <==> exists v :: CreatesFor(s, v, addr))
  {
    RunKeepsInv(events);
  }

  lemma {:induction false} ReplayPrefix(log: seq<Mark>, addr: nat, n: nat)
    requires n <= |log| && Replay(log, addr).Some?
    ensures Replay(log[..n], addr).Some?
    decreases |log|
  {
    if n < |log| {
      var shorter := log[..|log| - 1];
      ReplayPrefix(shorter, addr, n);
      assert shorter[..n] == log[..n];
    } else {
      assert log[..n] == log;
    }
  }

  /** Two insertions for one address are separated by a removal of the first. */
  lemma {:induction false} InsertionsAlternate(log: seq<Mark>, addr: nat, i: nat, j: nat)
    requires i < j < |log| && log[i].Created? && log[j].Created? && log[i].addr == log[j].addr == addr
    requires Replay(log, addr).Some?
    ensures exists k :: i < k < j && log[k] == Gone(addr)
  {
    if forall k | i < k < j :: log[k] != Gone(addr) {
      assert log[..j + 1] == log[..j] + [log[j]];
      ReplaySnoc(log[..j], log[j], addr);
      ReplayPrefix(log, addr, j + 1);
      StillThere(log, addr, i, j);
    }
  }

  lemma {:induction false} StillThere(log: seq<Mark>, addr: nat, i: nat, j: nat)
    requires i < j <= |log| && log[i].Created? && log[i].addr == addr
    requires forall k | i < k < j :: log[k] != Gone(addr)
    ensures Replay(log[..j], addr) != Some(None)
    decreases j
  {
    ReplaySnoc(log[..j - 1], log[j - 1], addr);
    assert log[..j] == log[..j - 1] + [log[j - 1]];
    if j - 1 > i {
      StillThere(log, addr, i, j - 1);
    }
  }

  /** Every `is_new` result is an insertion of its own task into an empty slot, and between two insertions for an
      address the first endpoint was removed or evicted. */
  lemma NewEndpointsAreSeparated(events: seq<Event>, t: nat, i: nat, j: nat)
    ensures var s := Run(events);
            && (t in s.tasks && s.tasks[t].phase.Done? && s.tasks[t].phase.outcome.New? ==>
                  Created(s.tasks[t].addr, s.tasks[t].phase.outcome.endpoint, t) in s.log)
            && (i < j < |s.log| && s.log[i].Created? && s.log[j].Created? && s.log[i].addr == s.log[j].addr ==>
                  exists k :: i < k < j && s.log[k] == Gone(s.log[i].addr))
  {
    RunKeepsInv(events);
    var s := Run(events);
    if t in s.tasks && s.tasks[t].phase.Done? {
      assert PhaseOk(s, t);
    }
    if i < j < |s.log| && s.log[i].Created? && s.log[j].Created? && s.log[i].addr == s.log[j].addr {
      InsertionsAlternate(s.log, s.log[i].addr, i, j);
    }
  }

  /** An existing endpoint that is handed out was created for the requested address. */
  lemma ExistingEndpointsAreGenuine(events: seq<Event>, t: nat)
    ensures var s := Run(events);
            t in s.tasks && s.tasks[t].phase.Done? && s.tasks[t].phase.outcome.Existing? ==>
              exists u :: Created(s.tasks[t].addr, s.tasks[t].phase.outcome.endpoint, u) in s.log
  {
    RunKeepsInv(events);
    var s := Run(events);
    if t in s.tasks && s.tasks[t].phase.Done? {
      assert PhaseOk(s, t);
    }
  }

  /** Task `t` has decided on this outcome, even if its guard has not run to the end yet. */
  ghost predicate Decided(s: System, t: nat, r: Outcome) {
    t in s.tasks &&
    match s.tasks[t].phase
    case Releasing(_, o) => o == r
    case Unmapping(_, o) => o == r
    case Firing(_, o) => o == r
    case Done(o) => o == r
    case _ => false
  }

  /** At the moment a call settles on an existing endpoint, that endpoint is the cached one of its address. */
  lemma ExistingIsTheCachedOne(events: seq<Event>, e: Event, t: nat, endpoint: nat)
    requires Enabled(Run(events), e)
    requires !Decided(Run(events), t, Existing(endpoint)) && Decided(Step(Run(events), e), t, Existing(endpoint))
    ensures var s := Run(events);
            && t in s.tasks && s.tasks[t].addr in s.cache && s.cache[s.tasks[t].addr] == endpoint
            && exists u :: Created(s.tasks[t].addr, endpoint, u) in s.log
  {
    hide Run;
    RunKeepsInv(events);
    var s := Run(events);
    if e.Evict? {
      EvictKeepsTasks(s, e);
    } else if t != e.task {
      hide Step;
      StepMoves(s, e);
    }
  }

  // ---------------------------------------------------------------- waiters

  /** No live guard holds handle `n`. */
  ghost predicate Orphan(s: System, n: nat) {
    n < |s.generations| && forall t :: !Owns(s, t, n)
  }

  lemma StepKeepsOrphan(s: System, e: Event, n: nat)
    requires Orphan(s, n) && Enabled(s, e)
    ensures Orphan(Step(s, e), n) && Step(s, e).generations[n] == s.generations[n]
  {
    var s' := Step(s, e);
    if e.Evict? {
      forall t ensures !Owns(s', t, n) { assert !Owns(s, t, n); }
    } else {
      StepMoves(s, e);
      assert !Owns(s, e.task, n);
      StepOwn(s, e);
      StepFires(s, e);
      hide Step;
      forall t ensures !Owns(s', t, n) { assert !Owns(s, t, n); }
    }
  }

  /** A guard's handle is the one it was created with, and that one was new. */
  lemma StepOwn(s: System, e: Event)
    requires Enabled(s, e) && !e.Evict?
    ensures var s', t := Step(s, e), e.task;
            s'.tasks[t].phase.Guards() ==>
              if t in s.tasks && s.tasks[t].phase.Guards() then s'.tasks[t].phase.own == s.tasks[t].phase.own
              else s'.tasks[t].phase.own == |s.generations|
  {}

  lemma StepFires(s: System, e: Event)
    requires Enabled(s, e) && !e.Evict?
    ensures var s', t := Step(s, e), e.task;
            && |s.generations| <= |s'.generations|
            && forall n | 0 <= n < |s.generations| ::
                 s'.generations[n] ==
                 s.generations[n] + if e.Advance? && Owns(s, t, n) && s.tasks[t].phase.Firing? then 1 else 0
  {}

  lemma {:induction false} OrphanForever(s: System, events: seq<Event>, n: nat)
    requires Orphan(s, n)
    ensures var s' := From(s, events);
            Orphan(s', n) && s'.generations[n] == s.generations[n]
  {
    if events != [] {
      var u, e := From(s, events[..|events| - 1]), events[|events| - 1];
      OrphanForever(s, events[..|events| - 1], n);
      if Enabled(u, e) {
        StepKeepsOrphan(u, e, n);
      }
    }
  }

  /** How many more steps of task `t` fire its handle. */
  ghost function Rank(p: Phase): nat
    requires p.Guards()
  {
    match p
    case Announcing(_) => 6
    case DoubleChecking(_) => 5
    case Creating(_) => 4
    case Inserting(_, _) => 4
    case Releasing(_, _) => 3
    case Unmapping(_, _) => 2
    case Firing(_, _) => 1
  }

  lemma GuardMoves(s: System, t: nat, n: nat)
    requires HandlesOk(s) && Owns(s, t, n) && !s.tasks[t].phase.Firing?
    ensures var e := if s.tasks[t].phase.Creating? then Refused(t) else Advance(t);
            && Enabled(s, e) && Owns(Step(s, e), t, n)
            && Rank(Step(s, e).tasks[t].phase) < Rank(s.tasks[t].phase)
            && Step(s, e).generations == s.generations
  {}

  /** While a guard holds the handle, some continuation fires it. */
  lemma {:induction false} OwnedCanFire(s: System, t: nat, n: nat) returns (events: seq<Event>)
    requires HandlesOk(s) && Owns(s, t, n)
    ensures n < |From(s, events).generations| && From(s, events).generations[n] > s.generations[n]
    decreases Rank(s.tasks[t].phase)
  {
    if s.tasks[t].phase.Firing? {
      events := [Advance(t)];
      FromSnoc(s, [], Advance(t));
      StepFires(s, Advance(t));
    } else {
      var e := if s.tasks[t].phase.Creating? then Refused(t) else Advance(t);
      GuardMoves(s, t, n);
      StepKeepsHandles(s, e);
      var rest := OwnedCanFire(Step(s, e), t, n);
      events := [e] + rest;
      FromCons(s, e, rest);
    }
  }

  lemma GuardStepsOrFires(s: System, e: Event, t: nat, n: nat)
    requires n < |s.generations| && Owns(s, t, n) && Enabled(s, e)
    ensures var s' := Step(s, e);
            && n < |s'.generations| && s'.generations[n] >= s.generations[n]
            && (Owns(s', t, n) || s'.generations[n] > s.generations[n])
  {
    if !e.Evict? {
      StepFires(s, e);
      StepMoves(s, e);
      if e.task != t {
        hide Step;
      }
    }
  }

  lemma GenerationsOnlyGrow(s: System, e: Event, n: nat)
    requires n < |s.generations| && Enabled(s, e)
    ensures n < |Step(s, e).generations| && Step(s, e).generations[n] >= s.generations[n]
  {
    if !e.Evict? {
      StepFires(s, e);
      hide Step;
    }
  }

  /** In every continuation the guard still holds the handle, or the handle was fired: nobody can take it away. */
  lemma {:induction false} GuardHoldsOrFires(s: System, events: seq<Event>, t: nat, n: nat)
    requires n < |s.generations| && Owns(s, t, n)
    ensures var s' := From(s, events);
            && n < |s'.generations| && s'.generations[n] >= s.generations[n]
            && (Owns(s', t, n) || s'.generations[n] > s.generations[n])
  {
    hide Step, Owns;
    if events != [] {
      var u, e := From(s, events[..|events| - 1]), events[|events| - 1];
      GuardHoldsOrFires(s, events[..|events| - 1], t, n);
      if Enabled(u, e) {
        GenerationsOnlyGrow(u, e, n);
        if Owns(u, t, n) {
          GuardStepsOrFires(u, e, t, n);
        }
      }
    }
  }

  lemma {:induction false} FromCons(s: System, e: Event, rest: seq<Event>)
    ensures From(s, [e] + rest) == From(Next(s, e), rest)
  {
    if rest == [] {
      FromSnoc(s, [], e);
      assert [e] + rest == [] + [e];
    } else {
      var n := |rest| - 1;
      FromCons(s, e, rest[..n]);
      assert ([e] + rest)[..n + 1] == [e] + rest[..n];
    }
  }

  /** A parked waiter that was not notified can still be woken if and only if a live guard holds its handle;
      waiters may also park on a handle of their own, which nobody ever fires. */
  lemma WakeableIffGuarded(events: seq<Event>, t: nat)
    requires var s := Run(events);
             && t in s.tasks && s.tasks[t].phase.Parked?
             && s.tasks[t].phase.notify < |s.generations|
             && s.generations[s.tasks[t].phase.notify] == s.tasks[t].phase.generation
    ensures var s := Run(events); var n := s.tasks[t].phase.notify;
            (exists more :: n < |From(s, more).generations|
                && From(s, more).generations[n] > s.tasks[t].phase.generation)
            <==> exists u :: Owns(s, u, n)
  {
    var s := Run(events);
    var n := s.tasks[t].phase.notify;
    RunKeepsInv(events);
    if u :| Owns(s, u, n) {
      var more := OwnedCanFire(s, u, n);
    } else {
      assert Orphan(s, n);
      forall more ensures !(n < |From(s, more).generations|
          && From(s, more).generations[n] > s.tasks[t].phase.generation) {
        OrphanForever(s, more, n);
      }
    }
  }

  /** A waiter whose handle a guard holds is safe in every continuation: that guard still holds it, or the waiter was
      woken. */
  lemma GuardedWaiterIsSafe(events: seq<Event>, t: nat, u: nat, more: seq<Event>)
    requires var s := Run(events);
             t in s.tasks && s.tasks[t].phase.Parked? && Owns(s, u, s.tasks[t].phase.notify)
    ensures var s, later := Run(events), From(Run(events), more);
            var n, g := s.tasks[t].phase.notify, s.tasks[t].phase.generation;
            n < |later.generations| && (Owns(later, u, n) || later.generations[n] > g)
  {
    RunKeepsInv(events);
    var s := Run(events);
    hide Run, From;
    GuardHoldsOrFires(s, more, u, s.tasks[t].phase.notify);
  }

  lemma Extend(events: seq<Event>, e: Event, s': System) returns (longer: seq<Event>)
    requires Next(Run(events), e) == s'
    ensures longer == events + [e] && Run(longer) == s'
  {
    FromSnoc(INIT, events, e);
    longer := events + [e];
  }

  /** The documented wakeup does not always come: a waiter can register before the creator announces its handle.
      Here the endpoint of address `a` is ready, nobody is creating, and the waiter is parked for good. */
  lemma LostWakeup(a: nat, endpoint: nat) returns (events: seq<Event>)
    ensures var s := Run(events);
            && s.creating == {} && a in s.cache
            && 1 in s.tasks && s.tasks[1] == Task(a, Parked(1, 0))
            && forall more :: 1 < |From(s, more).generations| && From(s, more).generations[1] == 0
  {
    events := CreatorFinishes(a, endpoint);
    var s := Run(events);
    hide Run;
    assert Orphan(s, 1);
    forall more ensures 1 < |From(s, more).generations| && From(s, more).generations[1] == 0 {
      OrphanForever(s, more, 1);
    }
  }

  lemma BothMissTheCache(a: nat) returns (events: seq<Event>)
    ensures Run(events) == System(map[], {}, map[], [], map[0 := Task(a, Arbitrating), 1 := Task(a, Arbitrating)], [])
  {
    assert Run([]) == INIT;
    hide Run;
    var t, x := Task(a, Checking), Task(a, Arbitrating);
    events := Extend([], Begin(0, a), System(map[], {}, map[], [], map[0 := t], []));
    events := Extend(events, Begin(1, a), System(map[], {}, map[], [], map[0 := t, 1 := t], []));
    events := Extend(events, Advance(0), System(map[], {}, map[], [], map[0 := x, 1 := t], []));
    events := Extend(events, Advance(1), System(map[], {}, map[], [], map[0 := x, 1 := x], []));
  }

  lemma WaiterComesFirst(a: nat) returns (events: seq<Event>)
    ensures Run(events) == System(map[], {a}, map[], [0], map[0 := Task(a, Announcing(0)), 1 := Task(a, Joining)], [])
  {
    events := BothMissTheCache(a);
    hide Run;
    var y := Task(a, Announcing(0));
    events := Extend(events, Advance(0), System(map[], {a}, map[], [0], map[0 := y, 1 := Task(a, Arbitrating)], []));
    events := Extend(events, Advance(1), System(map[], {a}, map[], [0], map[0 := y, 1 := Task(a, Joining)], []));
  }

  lemma WaiterParks(a: nat) returns (events: seq<Event>)
    ensures Run(events) == System(map[], {a}, map[a := 1], [0, 0],
        map[0 := Task(a, Announcing(0)), 1 := Task(a, Parked(1, 0))], [])
  {
    events := WaiterComesFirst(a);
    hide Run;
    var y := Task(a, Announcing(0));
    events := Extend(events, Advance(1),
        System(map[], {a}, map[a := 1], [0, 0], map[0 := y, 1 := Task(a, Rechecking(1))], []));
    events := Extend(events, Advance(1),
        System(map[], {a}, map[a := 1], [0, 0], map[0 := y, 1 := Task(a, Subscribing(1))], []));
    events := Extend(events, Advance(1),
        System(map[], {a}, map[a := 1], [0, 0], map[0 := y, 1 := Task(a, Parked(1, 0))], []));
  }

  lemma CreatorAnnouncesLate(a: nat) returns (events: seq<Event>)
    ensures Run(events) == System(map[], {a}, map[a := 0], [0, 0],
        map[0 := Task(a, DoubleChecking(0)), 1 := Task(a, Parked(1, 0))], [])
  {
    events := WaiterParks(a);
    hide Run;
    events := Extend(events, Advance(0),
        System(map[], {a}, map[a := 0], [0, 0], map[0 := Task(a, DoubleChecking(0)), 1 := Task(a, Parked(1, 0))], []));
  }

  lemma CreatorFinishes(a: nat, endpoint: nat) returns (events: seq<Event>)
    ensures Run(events) == System(map[a := endpoint], {}, map[], [1, 0],
                                  map[0 := Task(a, Done(New(endpoint))), 1 := Task(a, Parked(1, 0))],
                                      [Created(a, endpoint, 0)])
  {
    events := CreatorInserts(a, endpoint);
    hide Run;
    var waiter := Task(a, Parked(1, 0));
    var log, r := [Created(a, endpoint, 0)], New(endpoint);
    assert {a} - {a} == {};
    events := Extend(events, Advance(0),
        System(map[a := endpoint], {}, map[a := 0], [0, 0], map[0 := Task(a, Unmapping(0, r)), 1 := waiter], log));
    assert map[a := 0] - {a} == map[];
    events := Extend(events, Advance(0),
        System(map[a := endpoint], {}, map[], [0, 0], map[0 := Task(a, Firing(0, r)), 1 := waiter], log));
    events := Extend(events, Advance(0),
        System(map[a := endpoint], {}, map[], [1, 0], map[0 := Task(a, Done(r)), 1 := waiter], log));
  }

  lemma CreatorBinds(a: nat, endpoint: nat) returns (events: seq<Event>)
    ensures Run(events) == System(map[], {a}, map[a := 0], [0, 0],
                                  map[0 := Task(a, Inserting(0, endpoint)), 1 := Task(a, Parked(1, 0))], [])
  {
    events := CreatorAnnouncesLate(a);
    hide Run;
    var waiter := Task(a, Parked(1, 0));
    events := Extend(events, Advance(0),
        System(map[], {a}, map[a := 0], [0, 0], map[0 := Task(a, Creating(0)), 1 := waiter], []));
    events := Extend(events, Bound(0, endpoint),
        System(map[], {a}, map[a := 0], [0, 0], map[0 := Task(a, Inserting(0, endpoint)), 1 := waiter], []));
  }

  lemma CreatorInserts(a: nat, endpoint: nat) returns (events: seq<Event>)
    ensures Run(events) == System(map[a := endpoint], {a}, map[a := 0], [0, 0],
                                  map[0 := Task(a, Releasing(0, New(endpoint))), 1 := Task(a, Parked(1, 0))],
                                      [Created(a, endpoint, 0)])
  {
    events := CreatorBinds(a, endpoint);
    hide Run;
    var waiter := Task(a, Parked(1, 0));
    events := Extend(events, Advance(0), System(map[a := endpoint], {a}, map[a := 0], [0, 0],
                     map[0 := Task(a, Releasing(0, New(endpoint))), 1 := waiter], [Created(a, endpoint, 0)]));
  }
}
