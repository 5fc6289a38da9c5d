/** server/src/server.rs, `resolve_udp_target` under concurrency: any number of calls with failing, timed-out and
    cancelled lookups. Both mutexes are modelled; one event takes one lock or runs to the next release.

    `answers` (what DNS answered, for which key and when) and `Resolved.seen` record history. */
module DnsRuns {
  import opened Common
  import opened Dns

  /** `at`: when the entry was inserted; `seen`: when the call read or inserted it. */
  datatype Outcome = Resolved(addr: nat, at: nat, seen: nat) | Literal(addr: nat) | Failed

  datatype Phase =
    | Entering
    | HasResolving
    | HasBoth
    | Missed
    | Found(hit: Outcome)
    | Waiting(notify: nat, generation: nat)
    | Looking(own: nat)
    | Answered(own: nat, addr: nat)
    | Storing(own: nat, addr: nat)
    | Releasing(own: nat, result: Outcome)
    | Removing(own: nat, result: Outcome)
    | Firing(finished: nat, result: Outcome)
    | Done(result: Outcome)
  {
    predicate HoldsResolving() { HasResolving? || HasBoth? || Missed? || Found? || Removing? }
    predicate HoldsCache() { HasBoth? || Storing? }
    /** The task has a live `ResolutionGuard`. */
    predicate Owns() { Looking? || Answered? || Storing? || Releasing? || Removing? }
    /** The next step of the task takes this lock. */
    predicate WantsResolving() { Entering? || Releasing? }
    predicate WantsCache() { HasResolving? || Answered? }
  }

  datatype Task = Task(key: Key, deadline: nat, phase: Phase)

  datatype Answer = Answer(key: Key, addr: nat, when: nat)

  datatype System = System(
    clock: nat,
    tables: Tables,
    resolvingLock: Option<nat>,
    cacheLock: Option<nat>,
    tasks: map<nat, Task>,
    answers: set<Answer>)

  const INIT := System(0, Tables([], map[], []), None, None, map[], {})

  /** DNS_QUERY_TIMEOUT. */
  const QUERY_TIMEOUT: nat := 17 * SECOND

  datatype Event =
    | Tick(amount: nat)
    | Begin(task: nat, key: Key, literal: Option<nat>)
    | Lock(task: nat)
    | Advance(task: nat)
    | Resolve(task: nat, addr: nat)
    | Fail(task: nat)
    | TimeOut(task: nat)
    | Cancel(task: nat)

  predicate Enabled(s: System, e: Event) {
    match e
    case Tick(_) => true
    case Begin(t, _, _) => t !in s.tasks
    case Lock(t) => t in s.tasks && CanLock(s, s.tasks[t].phase)
    case Advance(t) => t in s.tasks && CanAdvance(s, s.tasks[t])
    case Resolve(t, _) => t in s.tasks && s.tasks[t].phase.Looking?
    case Fail(t) => t in s.tasks && s.tasks[t].phase.Looking?
    case TimeOut(t) =>
      t in s.tasks && (s.tasks[t].phase.Looking? || s.tasks[t].phase.Waiting?) && s.tasks[t].deadline <= s.clock
    case Cancel(t) => t in s.tasks && (s.tasks[t].phase.Looking? || s.tasks[t].phase.Waiting?)
  }

  predicate CanLock(s: System, p: Phase) {
    (p.WantsResolving() && s.resolvingLock.None?) || (p.WantsCache() && s.cacheLock.None?)
  }

  predicate CanAdvance(s: System, task: Task) {
    match task.phase
    case HasBoth => true
    case Missed => task.key in s.tables.resolving ==> s.tables.resolving[task.key] < |s.tables.generations|
    case Found(_) => true
    case Waiting(n, g) => n < |s.tables.generations| && s.tables.generations[n] > g
    case Storing(_, _) => true
    case Removing(_, _) => true
    case Firing(n, _) => n < |s.tables.generations|
    case _ => false
  }

  function Goto(s: System, t: nat, p: Phase): System
    requires t in s.tasks
  {
    s.(tasks := s.tasks[t := s.tasks[t].(phase := p)])
  }

  function LockStep(s: System, t: nat): System
    requires t in s.tasks && CanLock(s, s.tasks[t].phase)
  {
    match s.tasks[t].phase
    case Entering => Goto(s.(resolvingLock := Some(t)), t, HasResolving)
    case HasResolving => Goto(s.(cacheLock := Some(t)), t, HasBoth)
    case Answered(n, addr) => Goto(s.(cacheLock := Some(t)), t, Storing(n, addr))
    case Releasing(n, result) => Goto(s.(resolvingLock := Some(t)), t, Removing(n, result))
  }

  function CheckStep(s: System, t: nat): System
    requires t in s.tasks
  {
    var (cache, hit) := CheckSpec(s.tables.cache, s.tasks[t].key, s.clock);
    Goto(s.(tables := s.tables.(cache := cache), cacheLock := None), t,
         if hit.Some? then Found(Resolved(hit.value.addr, hit.value.at, s.clock)) else Missed)
  }

  function AdmitStep(s: System, t: nat): System
    requires t in s.tasks && s.tasks[t].phase.Missed? && CanAdvance(s, s.tasks[t])
  {
    var (tables, admission) := AdmitSpec(s.tables, s.tasks[t].key);
    Goto(s.(tables := tables, resolvingLock := None), t,
         match admission case Wait(n, g) => Waiting(n, g) case Own(n) => Looking(n) case Hit(_) => Missed)
  }

  function StoreStep(s: System, t: nat, n: nat, addr: nat): System
    requires t in s.tasks
  {
    Goto(s.(tables := s.tables.(cache := StoreSpec(s.tables.cache, Entry(s.tasks[t].key, addr, s.clock))),
            cacheLock := None),
         t, Releasing(n, Resolved(addr, s.clock, s.clock)))
  }

  function AdvanceStep(s: System, t: nat): System
    requires t in s.tasks && CanAdvance(s, s.tasks[t])
  {
    match s.tasks[t].phase
    case HasBoth => CheckStep(s, t)
    case Missed => AdmitStep(s, t)
    case Found(hit) => Goto(s.(resolvingLock := None), t, Done(hit))
    case Waiting(_, _) => Goto(s, t, Entering)
    case Storing(n, addr) => StoreStep(s, t, n, addr)
    case Removing(n, result) =>
      Goto(s.(tables := s.tables.(resolving := s.tables.resolving - {s.tasks[t].key}), resolvingLock := None), t,
          Firing(n, result))
    case Firing(n, result) =>
      Goto(s.(tables := s.tables.(generations := s.tables.generations[n := s.tables.generations[n] + 1])), t,
          Done(result))
  }

  /** A failed, timed-out or cancelled owner still runs its guard. */
  function StopStep(s: System, t: nat): System
    requires t in s.tasks && (s.tasks[t].phase.Looking? || s.tasks[t].phase.Waiting?)
  {
    Goto(s, t, if s.tasks[t].phase.Looking? then Releasing(s.tasks[t].phase.own, Failed) else Done(Failed))
  }

  function Step(s: System, e: Event): System
    requires Enabled(s, e)
  {
    match e
    case Tick(amount) => s.(clock := s.clock + amount)
    case Begin(t, key, literal) =>
      var phase := if literal.Some? then Done(Literal(literal.value)) else Entering;
      s.(tasks := s.tasks[t := Task(key, s.clock + QUERY_TIMEOUT, phase)])
    case Lock(t) => LockStep(s, t)
    case Advance(t) => AdvanceStep(s, t)
    case Resolve(t, addr) =>
      Goto(s.(answers := s.answers + {Answer(s.tasks[t].key, addr, s.clock)}), t, Answered(s.tasks[t].phase.own, addr))
    case Fail(t) => StopStep(s, t)
    case TimeOut(t) => StopStep(s, t)
    case Cancel(t) => StopStep(s, t)
  }

  // ---------------------------------------------------------------- invariants

  ghost predicate LocksOk(s: System) {
    && (s.resolvingLock.Some? ==> s.resolvingLock.value in s.tasks)
    && (s.cacheLock.Some? ==> s.cacheLock.value in s.tasks)
    && (forall t | t in s.tasks :: s.tasks[t].phase.HoldsResolving() <==> s.resolvingLock == Some(t))
    && (forall t | t in s.tasks :: s.tasks[t].phase.HoldsCache() <==> s.cacheLock == Some(t))
  }

  ghost predicate OwnsKey(s: System, t: nat, key: Key, n: nat) {
    t in s.tasks && s.tasks[t].phase.Owns() && s.tasks[t].key == key && s.tasks[t].phase.own == n
  }

  /** `resolving` maps a key to a handle exactly if one live guard owns both. */
  ghost predicate OwnersOk(s: System) {
    && (forall k | k in s.tables.resolving :: s.tables.resolving[k] < |s.tables.generations|)
    && (forall t, k, n | OwnsKey(s, t, k, n) :: k in s.tables.resolving && s.tables.resolving[k] == n)
    && (forall k | k in s.tables.resolving :: exists t :: OwnsKey(s, t, k, s.tables.resolving[k]))
    && (forall t, u, k, n, m | OwnsKey(s, t, k, n) && OwnsKey(s, u, k, m) :: t == u)
  }

  ghost predicate AboutToFire(s: System, u: nat, n: nat) {
    u in s.tasks && s.tasks[u].phase.Firing? && s.tasks[u].phase.finished == n
  }

  /** A waiter that was not notified waits on the live lookup of its key, or that lookup is about to notify. */
  ghost predicate WaiterOk(s: System, key: Key, n: nat, g: nat) {
    && n < |s.tables.generations|
    && g <= s.tables.generations[n]
    && (s.tables.generations[n] == g ==>
          (key in s.tables.resolving && s.tables.resolving[key] == n) || exists u :: AboutToFire(s, u, n))
  }

  ghost predicate WaitersOk(s: System) {
    && (forall t | t in s.tasks && s.tasks[t].phase.Waiting? ::
          WaiterOk(s, s.tasks[t].key, s.tasks[t].phase.notify, s.tasks[t].phase.generation))
    && (forall t | t in s.tasks && s.tasks[t].phase.Firing? :: s.tasks[t].phase.finished < |s.tables.generations|)
  }

  /** DNS answered `addr` for `key` no later than `at`. */
  ghost predicate Answers(s: System, key: Key, addr: nat, at: nat) {
    exists a :: a in s.answers && a.key == key && a.addr == addr && a.when <= at
  }

  ghost predicate CacheOk(s: System) {
    && Distinct(s.tables.cache) && |s.tables.cache| <= CACHE_MAX
    && (forall e | e in s.tables.cache :: e.at <= s.clock && Answers(s, e.key, e.addr, e.at))
  }

  ghost predicate OutcomeOk(s: System, key: Key, r: Outcome) {
    r.Resolved? ==> Answers(s, key, r.addr, r.at) && r.at <= r.seen <= s.clock && r.seen - r.at < TTL
  }

  ghost predicate PhaseOk(s: System, task: Task) {
    match task.phase
    case Found(r) => OutcomeOk(s, task.key, r)
    case Answered(_, addr) => Answers(s, task.key, addr, s.clock)
    case Storing(_, addr) => Answers(s, task.key, addr, s.clock)
    case Releasing(_, r) => OutcomeOk(s, task.key, r)
    case Removing(_, r) => OutcomeOk(s, task.key, r)
    case Firing(_, r) => OutcomeOk(s, task.key, r)
    case Done(r) => OutcomeOk(s, task.key, r)
    case _ => true
  }

  ghost predicate OutcomesOk(s: System) {
    forall t | t in s.tasks :: PhaseOk(s, s.tasks[t])
  }

  ghost predicate Inv(s: System) {
    LocksOk(s) && OwnersOk(s) && WaitersOk(s) && CacheOk(s) && OutcomesOk(s)
  }

  // ---------------------------------------------------------------- one step

  /** A step changes the phase of one task, or adds it. */
  ghost predicate OnlyMoves(s: System, s': System, t: nat) {
    && t in s'.tasks
    && s'.tasks.Keys == s.tasks.Keys + {t}
    && (forall u | u in s.tasks && u != t :: s'.tasks[u] == s.tasks[u])
    && (t in s.tasks ==> s'.tasks[t].key == s.tasks[t].key)
  }

  lemma StepMoves(s: System, e: Event)
    requires Enabled(s, e) && !e.Tick?
    ensures OnlyMoves(s, Step(s, e), e.task)
  {
    hide CheckSpec, AdmitSpec, StoreSpec;
  }

  /** A lock goes to the moving task, is released by it, or stays where it is. */
  ghost predicate LockMoves(before: Option<nat>, after: Option<nat>, t: nat, held: bool, holds: bool) {
    && after == (if holds then Some(t) else if held then None else before)
    && (holds ==> held || before.None?)
  }

  lemma StepLocks(s: System, e: Event)
    requires LocksOk(s) && Enabled(s, e) && !e.Tick?
    ensures var s', t := Step(s, e), e.task;
            && LockMoves(s.resolvingLock, s'.resolvingLock, t,
                         t in s.tasks && s.tasks[t].phase.HoldsResolving(), s'.tasks[t].phase.HoldsResolving())
            && LockMoves(s.cacheLock, s'.cacheLock, t,
                         t in s.tasks && s.tasks[t].phase.HoldsCache(), s'.tasks[t].phase.HoldsCache())
  {
    hide CheckSpec, StoreSpec;
  }

  lemma StepKeepsLocks(s: System, e: Event)
    requires LocksOk(s) && Enabled(s, e)
    ensures LocksOk(Step(s, e))
  {
    if !e.Tick? {
      StepMoves(s, e);
      StepLocks(s, e);
      hide Step;
    }
  }

  /** How a step moves ownership: `resolving` changes only when a guard is created or drops its key. */
  lemma StepResolving(s: System, e: Event)
    requires Enabled(s, e) && !e.Tick?
    ensures var s' := Step(s, e);
            var t := e.task;
            var r, r' := s.tables.resolving, s'.tables.resolving;
            var p' := s'.tasks[t].phase;
            if e.Advance? && s.tasks[t].phase.Missed? then
              if s.tasks[t].key in r then
                s'.tables == s.tables && p' == Waiting(r[s.tasks[t].key], s.tables.generations[r[s.tasks[t].key]])
              else
                s'.tables.cache == s.tables.cache && r' == r[s.tasks[t].key := |s.tables.generations|]
                && s'.tables.generations == s.tables.generations + [0] && p' == Looking(|s.tables.generations|)
            else if e.Advance? && s.tasks[t].phase.Removing? then
              r' == r - {s.tasks[t].key} && s'.tables.generations == s.tables.generations
              && p' == Firing(s.tasks[t].phase.own, s.tasks[t].phase.result)
            else
              && r' == r && !p'.Waiting? && !p'.Firing?
              && (p'.Owns() <==> t in s.tasks && s.tasks[t].phase.Owns())
              && (p'.Owns() ==> p'.own == s.tasks[t].phase.own)
              && (if e.Advance? && s.tasks[t].phase.Firing? then
                    s'.tables.generations == s.tables.generations[s.tasks[t].phase.finished :=
                        s.tables.generations[s.tasks[t].phase.finished] + 1]
                  else s'.tables.generations == s.tables.generations)
  {
    hide CheckSpec, StoreSpec;
  }

  lemma StepKeepsOwners(s: System, e: Event)
    requires OwnersOk(s) && Enabled(s, e)
    ensures OwnersOk(Step(s, e))
  {
    if !e.Tick? {
      StepMoves(s, e);
      StepResolving(s, e);
      var s', t := Step(s, e), e.task;
      hide Step;
      OwnersFollow(s, s', t);
      if e.Advance? && s.tasks[t].phase.Missed? && s.tasks[t].key !in s.tables.resolving {
        OwnerAdded(s, s', t);
      } else if e.Advance? && s.tasks[t].phase.Removing? {
        OwnerRemoved(s, s', t);
      } else {
        OwnersStay(s, s', t);
      }
    } else {
      forall t, k, n ensures OwnsKey(Step(s, e), t, k, n) <==> OwnsKey(s, t, k, n) {}
    }
  }

  lemma OwnersFollow(s: System, s': System, t: nat)
    requires OnlyMoves(s, s', t)
    ensures forall u, k, n | u != t :: OwnsKey(s', u, k, n) <==> OwnsKey(s, u, k, n)
  {}

  lemma OwnersStay(s: System, s': System, t: nat)
    requires OwnersOk(s) && OnlyMoves(s, s', t)
    requires s'.tables.resolving == s.tables.resolving && |s.tables.generations| <= |s'.tables.generations|
    requires s'.tasks[t].phase.Owns() <==> t in s.tasks && s.tasks[t].phase.Owns()
    requires s'.tasks[t].phase.Owns() ==> s'.tasks[t].phase.own == s.tasks[t].phase.own
    ensures OwnersOk(s')
  {
    forall u, k, n ensures OwnsKey(s', u, k, n) <==> OwnsKey(s, u, k, n) {}
    hide OwnsKey, OnlyMoves;
  }

  lemma OwnerAdded(s: System, s': System, t: nat)
    requires OwnersOk(s) && OnlyMoves(s, s', t) && t in s.tasks && s.tasks[t].phase.Missed?
    requires s.tasks[t].key !in s.tables.resolving
    requires s'.tables.resolving == s.tables.resolving[s.tasks[t].key := |s.tables.generations|]
    requires s'.tables.generations == s.tables.generations + [0] && s'.tasks[t].phase == Looking(|s.tables.generations|)
    ensures OwnersOk(s')
  {
    var key, m := s.tasks[t].key, |s.tables.generations|;
    OwnersFollow(s, s', t);
    assert OwnsKey(s', t, key, m);
    assert forall k, n | OwnsKey(s', t, k, n) :: k == key && n == m;
    assert forall k, n :: !OwnsKey(s, t, k, n);
    hide OwnsKey, OnlyMoves;
  }

  lemma OwnerRemoved(s: System, s': System, t: nat)
    requires OwnersOk(s) && OnlyMoves(s, s', t) && t in s.tasks && s.tasks[t].phase.Removing?
    requires s'.tables.resolving == s.tables.resolving - {s.tasks[t].key}
    requires s'.tables.generations == s.tables.generations && s'.tasks[t].phase.Firing?
    ensures OwnersOk(s')
  {
    var key := s.tasks[t].key;
    OwnersFollow(s, s', t);
    assert OwnsKey(s, t, key, s.tasks[t].phase.own);
    assert forall k, n | OwnsKey(s, t, k, n) :: k == key;
    assert forall k, n :: !OwnsKey(s', t, k, n);
    hide OwnsKey, OnlyMoves;
    forall k | k in s'.tables.resolving
      ensures exists u :: OwnsKey(s', u, k, s'.tables.resolving[k])
    {
      var u :| OwnsKey(s, u, k, s.tables.resolving[k]);
      assert u != t;
      assert OwnsKey(s', u, k, s'.tables.resolving[k]);
    }
  }

  lemma StepKeepsWaiters(s: System, e: Event)
    requires OwnersOk(s) && WaitersOk(s) && Enabled(s, e)
    ensures WaitersOk(Step(s, e))
  {
    var s' := Step(s, e);
    if e.Tick? {
      forall u, n ensures AboutToFire(s', u, n) <==> AboutToFire(s, u, n) {}
      forall k, n, g | WaiterOk(s, k, n, g) ensures WaiterOk(s', k, n, g) {}
    } else {
      var t := e.task;
      StepMoves(s, e);
      StepResolving(s, e);
      if e.Advance? && s.tasks[t].phase.Removing? {
        assert OwnsKey(s, t, s.tasks[t].key, s.tasks[t].phase.own);
      }
      hide Step;
      forall k, n, g | WaiterOk(s, k, n, g) ensures WaiterOk(s', k, n, g) {
        KeepsWaiter(s, s', t, k, n, g);
      }
      hide WaiterOk;
      forall u | u in s'.tasks && s'.tasks[u].phase.Waiting?
        ensures WaiterOk(s', s'.tasks[u].key, s'.tasks[u].phase.notify, s'.tasks[u].phase.generation)
      {
        if u == t {
          FreshWaiter(s', t);
        }
      }
    }
  }

  lemma FreshWaiter(s: System, t: nat)
    requires t in s.tasks && s.tasks[t].phase.Waiting? && s.tasks[t].key in s.tables.resolving
    requires s.tasks[t].phase.notify == s.tables.resolving[s.tasks[t].key] < |s.tables.generations|
    requires s.tasks[t].phase.generation == s.tables.generations[s.tasks[t].phase.notify]
    ensures WaiterOk(s, s.tasks[t].key, s.tasks[t].phase.notify, s.tasks[t].phase.generation)
  {}

  /** Step `t` fires a handle, releases a key whose handle it is about to fire, or leaves both alone. */
  lemma KeepsWaiter(s: System, s': System, t: nat, key: Key, n: nat, g: nat)
    requires WaiterOk(s, key, n, g) && OnlyMoves(s, s', t)
    requires |s.tables.generations| <= |s'.tables.generations|
    requires forall m | 0 <= m < |s.tables.generations| :: s.tables.generations[m] <= s'.tables.generations[m]
    requires forall k | k in s.tables.resolving ::
               (k in s'.tables.resolving && s'.tables.resolving[k] == s.tables.resolving[k])
                   || AboutToFire(s', t, s.tables.resolving[k])
    requires t in s.tasks && s.tasks[t].phase.Firing? ==>
               var m := s.tasks[t].phase.finished;
               m < |s.tables.generations| && s'.tables.generations[m] > s.tables.generations[m]
    ensures WaiterOk(s', key, n, g)
  {
    if s'.tables.generations[n] == g && !(key in s.tables.resolving && s.tables.resolving[key] == n) {
      var u :| AboutToFire(s, u, n);
      assert AboutToFire(s', u, n);
    }
  }

  lemma AnswersPersist(s: System, s': System, key: Key, addr: nat, at: nat, at': nat)
    requires s.answers <= s'.answers && Answers(s, key, addr, at) && at <= at'
    ensures Answers(s', key, addr, at')
  {}

  lemma StepKeepsHistory(s: System, e: Event)
    requires Enabled(s, e)
    ensures s.answers <= Step(s, e).answers && s.clock <= Step(s, e).clock
    ensures e.Resolve? ==> Answers(Step(s, e), s.tasks[e.task].key, e.addr, s.clock)
  {}

  /** Every step leaves the cache alone, drops a stale entry, or stores what DNS answered the storing task. */
  lemma StepCache(s: System, e: Event)
    requires Enabled(s, e)
    ensures var c, c' := s.tables.cache, Step(s, e).tables.cache;
            if e.Advance? && s.tasks[e.task].phase.HasBoth? then c' == CheckSpec(c, s.tasks[e.task].key, s.clock).0
            else if e.Advance? && s.tasks[e.task].phase.Storing? then
              c' == StoreSpec(c, Entry(s.tasks[e.task].key, s.tasks[e.task].phase.addr, s.clock))
            else c' == c
  {
    hide CheckSpec, StoreSpec;
  }

  lemma StepKeepsCache(s: System, e: Event)
    requires CacheOk(s) && OutcomesOk(s) && Enabled(s, e)
    ensures CacheOk(Step(s, e))
  {
    var s' := Step(s, e);
    StepKeepsHistory(s, e);
    StepCache(s, e);
    var c := s.tables.cache;
    if e.Advance? && s.tasks[e.task].phase.HasBoth? {
      CheckKeepsCache(c, s.tasks[e.task].key, s.clock);
    } else if e.Advance? && s.tasks[e.task].phase.Storing? {
      assert PhaseOk(s, s.tasks[e.task]);
      StoreKeepsCache(c, Entry(s.tasks[e.task].key, s.tasks[e.task].phase.addr, s.clock));
    }
    hide Step, CheckSpec, StoreSpec, Answers, Distinct;
    forall x | x in s'.tables.cache
      ensures x.at <= s'.clock && Answers(s', x.key, x.addr, x.at)
    {
      assert Answers(s, x.key, x.addr, x.at);
      AnswersPersist(s, s', x.key, x.addr, x.at, x.at);
    }
  }

  /** Where a task's result comes from. */
  lemma StepOutcome(s: System, e: Event)
    requires CacheOk(s) && OutcomesOk(s) && Enabled(s, e) && !e.Tick?
    ensures PhaseOk(Step(s, e), Step(s, e).tasks[e.task])
  {
    hide CheckSpec, StoreSpec, AdmitSpec, Answers;
    var s', t := Step(s, e), e.task;
    if e.Advance? && s.tasks[t].phase.HasBoth? {
      HitOutcome(s, t);
    } else if e.Resolve? {
      ResolveOutcome(s, e);
    } else if t in s.tasks {
      StepKeepsHistory(s, e);
      assert PhaseOk(s, s.tasks[t]);
      PhasePersists(s, s', s.tasks[t]);
    }
  }

  lemma HitOutcome(s: System, t: nat)
    requires CacheOk(s) && t in s.tasks
    ensures PhaseOk(CheckStep(s, t), CheckStep(s, t).tasks[t])
  {
    CheckKeepsCache(s.tables.cache, s.tasks[t].key, s.clock);
    hide CheckSpec, Answers;
    var hit := CheckSpec(s.tables.cache, s.tasks[t].key, s.clock).1;
    if hit.Some? {
      AnswersPersist(s, CheckStep(s, t), hit.value.key, hit.value.addr, hit.value.at, hit.value.at);
    }
  }

  lemma ResolveOutcome(s: System, e: Event)
    requires e.Resolve? && Enabled(s, e)
    ensures PhaseOk(Step(s, e), Step(s, e).tasks[e.task])
  {
    assert Answer(s.tasks[e.task].key, e.addr, s.clock) in Step(s, e).answers;
  }

  lemma PhasePersists(s: System, s': System, task: Task)
    requires PhaseOk(s, task) && s.answers <= s'.answers && s.clock <= s'.clock
    ensures PhaseOk(s', task)
  {}

  lemma StepKeepsOutcomes(s: System, e: Event)
    requires CacheOk(s) && OutcomesOk(s) && Enabled(s, e)
    ensures OutcomesOk(Step(s, e))
  {
    var s' := Step(s, e);
    StepKeepsHistory(s, e);
    if !e.Tick? {
      StepOutcome(s, e);
      StepMoves(s, e);
    }
    forall t | t in s.tasks { PhasePersists(s, s', s.tasks[t]); }
    assert e.Tick? ==> s'.tasks == s.tasks;
    hide Step, PhaseOk, CacheOk;
  }

  // ---------------------------------------------------------------- every run

  ghost function Next(s: System, e: Event): System {
    if Enabled(s, e) then Step(s, e) else s
  }

  /** The state after `events`; an event that cannot happen changes nothing. */
  ghost function Run(events: seq<Event>): System {
    if events == [] then INIT else Next(Run(events[..|events| - 1]), events[|events| - 1])
  }

  lemma {:induction false} RunKeepsInv(events: seq<Event>)
    ensures Inv(Run(events))
  {
    if events != [] {
      var s, e := Run(events[..|events| - 1]), events[|events| - 1];
      RunKeepsInv(events[..|events| - 1]);
      if Enabled(s, e) {
        hide Step, LocksOk, OwnersOk, WaitersOk, CacheOk, OutcomesOk;
        StepKeepsLocks(s, e);
        StepKeepsOwners(s, e);
        StepKeepsWaiters(s, e);
        StepKeepsCache(s, e);
        StepKeepsOutcomes(s, e);
      }
    }
  }

  /** Single flight: two lookups of one key never overlap, and a key is marked exactly while one guard owns it. */
  lemma SingleFlight(events: seq<Event>, t: nat, u: nat, key: Key)
    ensures var s := Run(events);
            && (t in s.tasks && u in s.tasks && s.tasks[t].phase.Looking? && s.tasks[u].phase.Looking?
                && s.tasks[t].key == s.tasks[u].key
                ==> t == u)
            && (key in s.tables.resolving <==> exists v, n :: OwnsKey(s, v, key, n))
            && (forall v, n | OwnsKey(s, v, key, n) :: s.tables.resolving[key] == n)
  {
    RunKeepsInv(events);
    var s := Run(events);
    if t in s.tasks && u in s.tasks && s.tasks[t].phase.Looking? && s.tasks[u].phase.Looking?
        && s.tasks[t].key == s.tasks[u].key {
      assert OwnsKey(s, t, s.tasks[t].key, s.tasks[t].phase.own) && OwnsKey(s, u, s.tasks[t].key, s.tasks[u].phase.own);
    }
  }

  /** A parked caller that was not notified waits for a live owner of its own key, or one that is about to notify. */
  lemma WaitersHaveAnOwner(events: seq<Event>, t: nat)
    ensures var s := Run(events);
            t in s.tasks && s.tasks[t].phase.Waiting? ==>
              var n, g := s.tasks[t].phase.notify, s.tasks[t].phase.generation;
              n < |s.tables.generations| &&
              (s.tables.generations[n] > g
               || (exists u :: OwnsKey(s, u, s.tasks[t].key, n))
               || exists u :: AboutToFire(s, u, n))
  {
    RunKeepsInv(events);
    var s := Run(events);
    if t in s.tasks && s.tasks[t].phase.Waiting? {
      assert WaiterOk(s, s.tasks[t].key, s.tasks[t].phase.notify, s.tasks[t].phase.generation);
    }
  }

  /** Refinement of the plain resolver: a returned address is a literal, or DNS gave it for that very host and
      port, and if it came from the cache it had been there for less than the TTL. */
  lemma ResultsAreFreshAnswers(events: seq<Event>, t: nat)
    ensures var s := Run(events);
            t in s.tasks && s.tasks[t].phase.Done? && s.tasks[t].phase.result.Resolved? ==>
              var Resolved(addr, at, seen) := s.tasks[t].phase.result;
              at <= seen <= s.clock && seen - at < TTL
              && exists a :: a in s.answers && a.key == s.tasks[t].key && a.addr == addr && a.when <= at
  {
    RunKeepsInv(events);
    var s := Run(events);
    if t in s.tasks && s.tasks[t].phase.Done? && s.tasks[t].phase.result.Resolved? {
      assert PhaseOk(s, s.tasks[t]);
      var r := s.tasks[t].phase.result;
      assert Answers(s, s.tasks[t].key, r.addr, r.at);
    }
  }

  /** The cache holds at most 256 keys, each with an address DNS gave for it. */
  lemma CacheIsBoundedAndTrue(events: seq<Event>)
    ensures var s := Run(events);
            && |s.tables.cache| <= CACHE_MAX && Distinct(s.tables.cache)
            && forall e | e in s.tables.cache ::
                 exists a :: a in s.answers && a.key == e.key && a.addr == e.addr && a.when <= e.at
  {
    RunKeepsInv(events);
    var s := Run(events);
    forall e | e in s.tables.cache
      ensures exists a :: a in s.answers && a.key == e.key && a.addr == e.addr && a.when <= e.at
    {
      assert Answers(s, e.key, e.addr, e.at);
    }
  }

  /** A lookup that fails, times out or is cancelled stores nothing: only a task that DNS answered adds an entry. */
  lemma OnlyAnswersAreStored(events: seq<Event>, e: Event, x: Entry)
    requires Enabled(Run(events), e)
    requires x in Step(Run(events), e).tables.cache && x !in Run(events).tables.cache
    ensures var s := Run(events);
            e.Advance? && s.tasks[e.task].phase.Storing?
                && x == Entry(s.tasks[e.task].key, s.tasks[e.task].phase.addr, s.clock)
  {
    RunKeepsInv(events);
    var s := Run(events);
    StepCache(s, e);
    if e.Advance? && s.tasks[e.task].phase.HasBoth? {
      CheckKeepsCache(s.tables.cache, s.tasks[e.task].key, s.clock);
    } else if e.Advance? && s.tasks[e.task].phase.Storing? {
      StoreKeepsCache(s.tables.cache, Entry(s.tasks[e.task].key, s.tasks[e.task].phase.addr, s.clock));
    }
  }

  /** `cache` is never held while `resolving` is being acquired, so whenever a lock is held some holder can move. */
  lemma LocksNeverDeadlock(events: seq<Event>, t: nat)
    ensures var s := Run(events);
            && (t in s.tasks && s.tasks[t].phase.WantsResolving() ==> s.cacheLock != Some(t))
            && (s.resolvingLock.Some? || s.cacheLock.Some? ==>
                  exists u :: (s.resolvingLock == Some(u) || s.cacheLock == Some(u))
                      && (Enabled(s, Advance(u)) || Enabled(s, Lock(u))))
  {
    RunKeepsInv(events);
    var s := Run(events);
    if s.cacheLock.Some? {
      assert Enabled(s, Advance(s.cacheLock.value));
    } else if s.resolvingLock.Some? {
      var u := s.resolvingLock.value;
      assert Enabled(s, Advance(u)) || Enabled(s, Lock(u));
    }
  }
}
