/** server/src/inflight.rs under concurrency: every interleaving of any number of `store`, `evict` and `cleanup` calls.

    Each `store` supplies the authentication named by its serial number, so that the fate of every
    stored entry can be followed. `instants` and `keys` record what store number `i` was called with,
    and `fates` what became of it; `Evicted.removed` is the entry a successful `evict` took out of the
    table. No step reads these. */
module InFlightRuns {
  import opened Common
  import opened InFlight

  datatype Config = Config(ttl: nat, evictTimeout: nat)

  datatype Phase =
    | Claiming
    | Authenticating(claimed: Stored)
    | Committing(claimed: Stored)
    | Registering
    | Parked(notify: nat, generation: nat)
    | Evicted(returned: nat, removed: nat)
    | GaveUp

  datatype Task = Task(key: Key, deadline: nat, phase: Phase)

  datatype Fate = Rejected | Overwritten(successor: nat) | Expired(when: nat) | Consumed(task: nat)

  datatype System = System(
    clock: nat,
    table: Table,
    tasks: map<nat, Task>,
    keys: seq<Key>,
    instants: seq<nat>,
    fates: map<nat, Fate>)

  datatype Event =
    | Tick(amount: nat)
    | Store(key: Key, now: nat)
    | Begin(task: nat, key: Key)
    | Claim(task: nat)
    | Authenticate(task: nat, verified: bool)
    | Commit(task: nat)
    | Register(task: nat)
    | Wake(task: nat)
    | TimeOut(task: nat)
    | Cancel(task: nat)
    | Cleanup(now: nat)

  const INIT := System(0, Table(map[], map[], []), map[], [], [], map[])

  function Serials(t: Table): set<nat> {
    set k | k in t.auth :: t.auth[k].auth
  }

  /** The events that can happen in `s`. `store` and `cleanup` read the clock before taking the lock, so their `now`
      may lag. */
  ghost predicate Enabled(s: System, e: Event) {
    match e
    case Tick(_) => true
    case Store(_, now) => now <= s.clock
    case Begin(t, _) => t !in s.tasks
    case Claim(t) => t in s.tasks && s.tasks[t].phase.Claiming?
    case Authenticate(t, _) => t in s.tasks && s.tasks[t].phase.Authenticating?
    case Commit(t) => t in s.tasks && s.tasks[t].phase.Committing?
    case Register(t) => t in s.tasks && s.tasks[t].phase.Registering? && NotifiesAllocated(s.table)
    case Wake(t) => t in s.tasks && s.tasks[t].phase.Parked? && Fired(s, s.tasks[t].phase)
    case TimeOut(t) =>
      t in s.tasks && s.tasks[t].phase.Parked? && !Fired(s, s.tasks[t].phase) && s.tasks[t].deadline <= s.clock
    case Cancel(t) => t in s.tasks && s.tasks[t].phase.Parked?
    case Cleanup(now) => now <= s.clock
  }

  /** `notify_waiters` ran after the task captured its generation. */
  ghost predicate Fired(s: System, p: Phase)
    requires p.Parked?
  {
    p.notify < |s.table.generations| && s.table.generations[p.notify] > p.generation
  }

  ghost function Goto(s: System, t: nat, p: Phase): System
    requires t in s.tasks
  {
    s.(tasks := s.tasks[t := s.tasks[t].(phase := p)])
  }

  /** Entries that left the table without being consumed. */
  ghost function Losses(s: System, after: Table, now: nat, key: Option<Key>): map<nat, Fate> {
    map x | x in Serials(s.table) && x !in Serials(after) ::
      if x < |s.keys| && key == Some(s.keys[x]) then Overwritten(|s.keys|) else Expired(now)
  }

  ghost function Step(cfg: Config, s: System, e: Event): System
    requires Enabled(s, e)
  {
    match e
    case Tick(amount) => s.(clock := s.clock + amount)
    case Store(key, now) =>
      var serial := |s.keys|;
      var (table, accepted) := StoreSpec(s.table, cfg.ttl, key, serial, now);
      s.(table := table, keys := s.keys + [key], instants := s.instants + [now],
         fates := s.fates + Losses(s, table, now, Some(key)) + (if accepted then map[] else map[serial := Rejected]))
    case Begin(t, key) => s.(tasks := s.tasks[t := Task(key, s.clock + cfg.evictTimeout, Claiming)])
    case Claim(t) =>
      var key := s.tasks[t].key;
      Goto(s, t, if key in s.table.auth then Authenticating(s.table.auth[key]) else Registering)
    case Authenticate(t, verified) =>
      Goto(s, t, if verified then Committing(s.tasks[t].phase.claimed) else GaveUp)
    case Commit(t) =>
      var Task(key, _, phase) := s.tasks[t];
      var (table, consumed) := CommitSpec(s.table, key, phase.claimed.at);
      if consumed then
        var removed := s.table.auth[key].auth;
        Goto(s.(table := table, fates := s.fates[removed := Consumed(t)]), t, Evicted(phase.claimed.auth, removed))
      else Goto(s, t, GaveUp)
    case Register(t) =>
      var (table, r) := RegisterSpec(s.table, cfg.evictTimeout, s.tasks[t].key, s.clock);
      Goto(s.(table := table), t,
           match r case Arrived => Claiming case Full => GaveUp case Subscribed(n, g) => Parked(n, g))
    case Wake(t) => Goto(s, t, Claiming)
    case TimeOut(t) => Goto(s, t, GaveUp)
    case Cancel(t) => Goto(s, t, GaveUp)
    case Cleanup(now) =>
      var table := CleanupSpec(s.table, cfg.ttl, cfg.evictTimeout, now);
      s.(table := table, fates := s.fates + Losses(s, table, now, None))
  }

  // ---------------------------------------------------------------- invariants

  /** A parked task whose notification has not fired is subscribed to the waiter of its key. */
  ghost predicate NoLostWakeup(s: System) {
    forall t | t in s.tasks && s.tasks[t].phase.Parked? :: ParkedOk(s.table, s.tasks[t])
  }

  ghost predicate ParkedOk(table: Table, task: Task)
    requires task.phase.Parked?
  {
    var n, g := task.phase.notify, task.phase.generation;
    && n < |table.generations|
    && g <= table.generations[n]
    && (table.generations[n] == g ==> task.key in table.waiting && table.waiting[task.key].notify == n)
  }

  /** Entry `e` is what some store wrote under `key`. */
  ghost predicate Stamped(s: System, key: Key, e: Stored) {
    e.auth < |s.keys| && |s.keys| == |s.instants| && s.keys[e.auth] == key && s.instants[e.auth] == e.at
  }

  ghost predicate Traced(s: System) {
    && |s.keys| == |s.instants|
    && (forall k | k in s.table.auth :: Stamped(s, k, s.table.auth[k]))
    && (forall t | t in s.tasks && (s.tasks[t].phase.Authenticating? || s.tasks[t].phase.Committing?) ::
          Stamped(s, s.tasks[t].key, s.tasks[t].phase.claimed))
  }

  /** Every store is either still in the table or has exactly one fate. */
  ghost predicate Conserved(s: System) {
    Partition(s.fates.Keys, Serials(s.table), |s.keys|)
  }

  /** Consumption and successful `evict` calls match one to one. */
  ghost predicate Matched(s: System) {
    && (forall x | x in s.fates && s.fates[x].Consumed? ::
          s.fates[x].task in s.tasks && s.tasks[s.fates[x].task].phase.Evicted?
              && s.tasks[s.fates[x].task].phase.removed == x)
    && (forall t | t in s.tasks && s.tasks[t].phase.Evicted? :: ReturnOk(s, t))
  }

  ghost predicate ReturnOk(s: System, t: nat)
    requires t in s.tasks && s.tasks[t].phase.Evicted?
  {
    var Task(key, _, Evicted(returned, removed)) := s.tasks[t];
    && returned < |s.keys| && removed < |s.keys| && |s.instants| == |s.keys|
    && s.keys[returned] == key && s.keys[removed] == key
    && s.instants[returned] == s.instants[removed]
    && removed in s.fates && s.fates[removed] == Consumed(t)
  }

  ghost predicate ExpiryJustified(cfg: Config, s: System) {
    && |s.keys| == |s.instants|
    && forall x | x in s.fates && s.fates[x].Expired? ::
         x < |s.instants| && !Fresh(s.fates[x].when, s.instants[x], cfg.ttl)
  }

  ghost predicate Inv(cfg: Config, s: System) {
    && TableOk(s.table) && NoLostWakeup(s) && Traced(s) && Conserved(s) && Matched(s) && ExpiryJustified(cfg, s)
  }

  // ---------------------------------------------------------------- one step

  /** A new table in which fired handles left `waiting` keeps every parked task subscribed. */
  ghost predicate Evolves(t: Table, u: Table) {
    && |t.generations| <= |u.generations|
    && (forall n | 0 <= n < |t.generations| :: t.generations[n] <= u.generations[n])
    && (forall k | k in t.waiting && t.waiting[k].notify < |t.generations| ::
          var n := t.waiting[k].notify;
          u.generations[n] > t.generations[n] || (k in u.waiting && u.waiting[k].notify == n))
  }

  lemma EvolvesKeepsParked(t: Table, u: Table, task: Task)
    requires task.phase.Parked? && ParkedOk(t, task) && Evolves(t, u)
    ensures ParkedOk(u, task)
  {}

  lemma InsertEvolves(t: Table, key: Key, a: Auth, now: nat)
    requires NotifiesAllocated(t)
    ensures Evolves(t, Insert(t, key, a, now))
  {}

  lemma StoreEvolves(t: Table, ttl: nat, key: Key, a: Auth, now: nat)
    requires TableOk(t)
    ensures Evolves(t, StoreSpec(t, ttl, key, a, now).0)
  {
    hide Insert;
    InsertEvolves(t, key, a, now);
    InsertEvolves(t.(auth := RetainAuth(t.auth, now, ttl)), key, a, now);
  }

  lemma PurgeEvolves(t: Table, limit: nat, now: nat)
    ensures Evolves(t, PurgeWaiting(t, limit, now))
  {}

  lemma SubscribeEvolves(t: Table, key: Key, now: nat)
    requires NotifiesAllocated(t)
    ensures Evolves(t, Subscribe(t, key, now).0)
  {}

  lemma EvolvesTransitive(t: Table, u: Table, v: Table)
    requires Evolves(t, u) && Evolves(u, v)
    ensures Evolves(t, v)
  {}

  lemma RegisterEvolves(t: Table, limit: nat, key: Key, now: nat)
    requires TableOk(t)
    ensures Evolves(t, RegisterSpec(t, limit, key, now).0)
  {
    hide Subscribe, PurgeWaiting, Evolves;
    var purged := PurgeWaiting(t, limit, now);
    PurgeKeepsTable(t, limit, now);
    PurgeEvolves(t, limit, now);
    SubscribeEvolves(t, key, now);
    SubscribeEvolves(purged, key, now);
    EvolvesTransitive(t, purged, Subscribe(purged, key, now).0);
    SelfEvolves(t);
  }

  lemma SelfEvolves(t: Table)
    ensures Evolves(t, t)
  {}

  lemma StepKeepsTable(cfg: Config, s: System, e: Event)
    requires TableOk(s.table) && Enabled(s, e)
    ensures TableOk(Step(cfg, s, e).table)
  {
    match e
    case Store(key, now) => StoreKeepsTable(s.table, cfg.ttl, key, |s.keys|, now);
    case Commit(t) => CommitKeepsTable(s.table, s.tasks[t].key, s.tasks[t].phase.claimed.at);
    case Register(t) => RegisterKeepsTable(s.table, cfg.evictTimeout, s.tasks[t].key, s.clock);
    case Cleanup(now) => CleanupKeepsTable(s.table, cfg.ttl, cfg.evictTimeout, now);
    case _ =>
  }

  lemma StepEvolves(cfg: Config, s: System, e: Event)
    requires TableOk(s.table) && Enabled(s, e)
    ensures Evolves(s.table, Step(cfg, s, e).table)
  {
    match e
    case Store(key, now) => StoreEvolves(s.table, cfg.ttl, key, |s.keys|, now);
    case Register(t) => RegisterEvolves(s.table, cfg.evictTimeout, s.tasks[t].key, s.clock);
    case Cleanup(now) => PurgeEvolves(s.table.(auth := RetainAuth(s.table.auth, now, cfg.ttl)), cfg.evictTimeout, now);
    case _ =>
  }

  lemma StepLosesNoWakeup(cfg: Config, s: System, e: Event)
    requires TableOk(s.table) && NoLostWakeup(s) && Enabled(s, e)
    ensures NoLostWakeup(Step(cfg, s, e))
  {
    StepEvolves(cfg, s, e);
    var s' := Step(cfg, s, e);
    forall t | t in s'.tasks && s'.tasks[t].phase.Parked?
      ensures ParkedOk(s'.table, s'.tasks[t])
    {
      OnlyRegisterParks(cfg, s, e, t);
      hide Step, ParkedOk;
      if t in s.tasks && s.tasks[t].phase.Parked? {
        EvolvesKeepsParked(s.table, s'.table, s.tasks[t]);
      }
    }
  }

  /** A parked task was parked before, or has just registered and holds the mapped handle. */
  lemma OnlyRegisterParks(cfg: Config, s: System, e: Event, t: nat)
    requires TableOk(s.table) && Enabled(s, e)
    requires t in Step(cfg, s, e).tasks && Step(cfg, s, e).tasks[t].phase.Parked?
    ensures var s' := Step(cfg, s, e);
            if t in s.tasks && s.tasks[t].phase.Parked? then s'.tasks[t] == s.tasks[t]
            else ParkedOk(s'.table, s'.tasks[t])
  {
    hide StoreSpec, CommitSpec, RegisterSpec, CleanupSpec, Losses, ParkedOk;
    if e.Register? {
      var task := s.tasks[e.task];
      RegistersAtItsWaiter(s.table, cfg.evictTimeout, task, s.clock);
      var (u, r) := RegisterSpec(s.table, cfg.evictTimeout, task.key, s.clock);
      assert t == e.task && r.Subscribed? ==>
          Step(cfg, s, e).tasks[t] == task.(phase := Parked(r.notify, r.generation)) && Step(cfg, s, e).table == u;
    }
  }

  lemma RegistersAtItsWaiter(t: Table, limit: nat, task: Task, now: nat)
    requires TableOk(t)
    ensures var (u, r) := RegisterSpec(t, limit, task.key, now);
            r.Subscribed? ==> ParkedOk(u, task.(phase := Parked(r.notify, r.generation)))
  {}

  /** How a critical section that may expire entries changes `auth`: an entry is put, kept, or stale and dropped. */
  ghost predicate AuthStep(t: Table, u: Table, ttl: nat, now: nat, put: map<Key, Stored>) {
    && (forall k | k in u.auth :: if k in put then u.auth[k] == put[k] else k in t.auth && u.auth[k] == t.auth[k])
    && put.Keys <= u.auth.Keys
    && (forall k | k in t.auth && k !in u.auth :: !Fresh(now, t.auth[k].at, ttl))
  }

  lemma StoreAuthStep(t: Table, ttl: nat, key: Key, a: Auth, now: nat)
    requires TableOk(t)
    ensures var (u, accepted) := StoreSpec(t, ttl, key, a, now);
            AuthStep(t, u, ttl, now, if accepted then map[key := Stored(a, now)] else map[])
  {}

  lemma CleanupAuthStep(t: Table, ttl: nat, limit: nat, now: nat)
    ensures AuthStep(t, CleanupSpec(t, ttl, limit, now), ttl, now, map[])
  {}

  lemma SerialIsAtItsKey(s: System, x: nat)
    requires Traced(s)
    ensures x in Serials(s.table) <==>
            x < |s.keys| && s.keys[x] in s.table.auth && s.table.auth[s.keys[x]].auth == x
  {}

  /** How a step other than `Commit` changes task `u`; finished `evict` calls never change. */
  ghost predicate Moved(s: System, s': System, u: nat)
    requires u in s'.tasks
  {
    var phase := s'.tasks[u].phase;
    if u in s.tasks && phase == s.tasks[u].phase then s'.tasks[u] == s.tasks[u] else
      && (u in s.tasks ==> s'.tasks[u].key == s.tasks[u].key && !s.tasks[u].phase.Evicted?)
      && !phase.Evicted?
      && (phase.Authenticating? ==> s'.tasks[u].key in s.table.auth && phase.claimed == s.table.auth[s'.tasks[u].key])
      && (phase.Committing? ==> u in s.tasks && s.tasks[u].phase == Authenticating(phase.claimed))
  }

  lemma StepMovesTasks(cfg: Config, s: System, e: Event)
    requires Enabled(s, e) && !e.Commit?
    ensures var s' := Step(cfg, s, e);
            s.tasks.Keys <= s'.tasks.Keys && forall u | u in s'.tasks :: Moved(s, s', u)
  {
    hide StoreSpec, CleanupSpec, RegisterSpec, Losses;
  }

  /** The events that leave `auth` and the history alone. */
  predicate Quiet(e: Event) {
    !e.Store? && !e.Commit? && !e.Cleanup?
  }

  lemma QuietStep(cfg: Config, s: System, e: Event)
    requires Enabled(s, e) && Quiet(e)
    ensures var s' := Step(cfg, s, e);
            s'.table.auth == s.table.auth && s'.keys == s.keys && s'.instants == s.instants && s'.fates == s.fates
  {}

  lemma TracesAfter(s: System, s': System)
    requires Traced(s)
    requires s.keys <= s'.keys && s.instants <= s'.instants && |s'.keys| == |s'.instants|
    requires forall k | k in s'.table.auth ::
               (k in s.table.auth && s'.table.auth[k] == s.table.auth[k]) || Stamped(s', k, s'.table.auth[k])
    requires forall u | u in s'.tasks :: Moved(s, s', u)
    ensures Traced(s')
  {}

  lemma CommitKeepsTraces(cfg: Config, s: System, t: nat)
    requires Traced(s) && Enabled(s, Commit(t))
    ensures Traced(Step(cfg, s, Commit(t)))
  {}

  lemma StepKeepsTraces(cfg: Config, s: System, e: Event)
    requires TableOk(s.table) && Traced(s) && Enabled(s, e)
    ensures Traced(Step(cfg, s, e))
  {
    if e.Commit? {
      CommitKeepsTraces(cfg, s, e.task);
    } else {
      hide StoreSpec, CleanupSpec, RegisterSpec, Losses;
      StepMovesTasks(cfg, s, e);
      match e {
        case Store(key, now) => StoreAuthStep(s.table, cfg.ttl, key, |s.keys|, now);
        case Cleanup(now) => CleanupAuthStep(s.table, cfg.ttl, cfg.evictTimeout, now);
        case _ => QuietStep(cfg, s, e);
      }
      TracesAfter(s, Step(cfg, s, e));
    }
  }

  /** Which serials a `store` leaves in the table: some of the old ones, and its own exactly when it is accepted. */
  lemma StoreSerials(cfg: Config, s: System, key: Key, now: nat)
    requires TableOk(s.table) && Traced(s)
    ensures var (table, accepted) := StoreSpec(s.table, cfg.ttl, key, |s.keys|, now);
            && (|s.keys| in Serials(table) <==> accepted)
            && (forall x | x in Serials(table) && x != |s.keys| :: x in Serials(s.table))
            && (forall x | x in Serials(s.table) :: x < |s.keys|)
  {
    var (table, accepted) := StoreSpec(s.table, cfg.ttl, key, |s.keys|, now);
    StoreAuthStep(s.table, cfg.ttl, key, |s.keys|, now);
    hide StoreSpec;
    if accepted {
      assert table.auth[key].auth == |s.keys|;
    }
  }

  /** The first `n` numbers split into `settled` and `live`. */
  ghost predicate Partition(settled: set<nat>, live: set<nat>, n: nat) {
    settled !! live && forall x :: x in settled || x in live <==> 0 <= x < n
  }

  lemma PartitionGrows(settled: set<nat>, live: set<nat>, live': set<nat>, n: nat)
    requires Partition(settled, live, n) && live' <= live + {n}
    ensures Partition(settled + (live - live') + (if n in live' then {} else {n}), live', n + 1)
  {}

  lemma StoreConserves(cfg: Config, s: System, key: Key, now: nat)
    requires TableOk(s.table) && Traced(s) && Conserved(s) && Enabled(s, Store(key, now))
    ensures Conserved(Step(cfg, s, Store(key, now)))
  {
    hide StoreSpec, Serials, TableOk, Traced;
    StoreSerials(cfg, s, key, now);
    var (table, accepted) := StoreSpec(s.table, cfg.ttl, key, |s.keys|, now);
    var live, live' := Serials(s.table), Serials(table);
    assert Losses(s, table, now, Some(key)).Keys == live - live';
    var s' := Step(cfg, s, Store(key, now));
    assert s'.fates.Keys == s.fates.Keys + (live - live') + (if |s.keys| in live' then {} else {|s.keys|});
    PartitionGrows(s.fates.Keys, live, live', |s.keys|);
  }

  lemma CleanupConserves(cfg: Config, s: System, now: nat)
    requires TableOk(s.table) && Traced(s) && Conserved(s) && Enabled(s, Cleanup(now))
    ensures Conserved(Step(cfg, s, Cleanup(now)))
  {}

  lemma CommitConserves(cfg: Config, s: System, t: nat)
    requires TableOk(s.table) && Traced(s) && Conserved(s) && Enabled(s, Commit(t))
    ensures Conserved(Step(cfg, s, Commit(t)))
  {
    var s' := Step(cfg, s, Commit(t));
    StepKeepsTraces(cfg, s, Commit(t));
    forall x: nat
      ensures !(x in s'.fates && x in Serials(s'.table))
      ensures x in s'.fates || x in Serials(s'.table) <==> x < |s'.keys|
    {
      SerialIsAtItsKey(s, x);
      SerialIsAtItsKey(s', x);
    }
  }

  lemma StepConserves(cfg: Config, s: System, e: Event)
    requires TableOk(s.table) && Traced(s) && Conserved(s) && Enabled(s, e)
    ensures Conserved(Step(cfg, s, e))
  {
    match e
    case Store(key, now) => StoreConserves(cfg, s, key, now);
    case Cleanup(now) => CleanupConserves(cfg, s, now);
    case Commit(t) => CommitConserves(cfg, s, t);
    case _ => QuietStep(cfg, s, e);
  }

  lemma CommitKeepsMatch(cfg: Config, s: System, t: nat)
    requires TableOk(s.table) && Traced(s) && Conserved(s) && Matched(s) && Enabled(s, Commit(t))
    ensures Matched(Step(cfg, s, Commit(t)))
  {
    var s' := Step(cfg, s, Commit(t));
    var Task(key, _, Committing(claimed)) := s.tasks[t];
    if CommitSpec(s.table, key, claimed.at).1 {
      var removed := s.table.auth[key].auth;
      assert Stamped(s, key, s.table.auth[key]) && removed in Serials(s.table);
      assert s'.fates == s.fates[removed := Consumed(t)];
      assert ReturnOk(s', t);
    }
    forall u | u in s'.tasks && s'.tasks[u].phase.Evicted? && u != t
      ensures ReturnOk(s', u)
    {
      assert ReturnOk(s, u);
    }
  }

  lemma MatchAfter(s: System, s': System)
    requires Conserved(s) && Matched(s)
    requires s.keys <= s'.keys && s.instants <= s'.instants && |s'.keys| == |s'.instants|
    requires forall x | x in s'.fates && s'.fates[x].Consumed? :: x in s.fates && s'.fates[x] == s.fates[x]
    requires forall x | x in s.fates :: x in s'.fates && s'.fates[x] == s.fates[x]
    requires s.tasks.Keys <= s'.tasks.Keys && forall u | u in s'.tasks :: Moved(s, s', u)
    ensures Matched(s')
  {}

  lemma FatesGrow(cfg: Config, s: System, e: Event)
    requires Traced(s) && Conserved(s) && Enabled(s, e) && !e.Commit?
    ensures var s' := Step(cfg, s, e);
            && s.keys <= s'.keys && s.instants <= s'.instants && |s'.keys| == |s'.instants|
            && (forall x | x in s.fates :: x in s'.fates && s'.fates[x] == s.fates[x])
            && (forall x | x in s'.fates && x !in s.fates :: !s'.fates[x].Consumed?)
  {
    hide StoreSpec, CleanupSpec, RegisterSpec, Serials, Stamped;
  }

  lemma StepKeepsMatch(cfg: Config, s: System, e: Event)
    requires TableOk(s.table) && Traced(s) && Conserved(s) && Matched(s) && Enabled(s, e)
    ensures Matched(Step(cfg, s, e))
  {
    if e.Commit? {
      CommitKeepsMatch(cfg, s, e.task);
    } else {
      hide Step;
      StepMovesTasks(cfg, s, e);
      FatesGrow(cfg, s, e);
      MatchAfter(s, Step(cfg, s, e));
    }
  }

  lemma StoreJustifiesExpiry(cfg: Config, s: System, key: Key, now: nat)
    requires TableOk(s.table) && Traced(s) && ExpiryJustified(cfg, s) && Enabled(s, Store(key, now))
    ensures ExpiryJustified(cfg, Step(cfg, s, Store(key, now)))
  {
    hide StoreSpec, Losses, Traced, TableOk;
    var (table, accepted) := StoreSpec(s.table, cfg.ttl, key, |s.keys|, now);
    assert forall k | k in s.table.auth && k !in table.auth :: !Fresh(now, s.table.auth[k].at, cfg.ttl)
      by { StoreAuthStep(s.table, cfg.ttl, key, |s.keys|, now); }
    assert forall k | k in s.table.auth && k in table.auth :: table.auth[k] == s.table.auth[k] || Some(k) == Some(key)
      by { StoreAuthStep(s.table, cfg.ttl, key, |s.keys|, now); }
    LossesAreStale(cfg, s, table, now, Some(key));
  }

  lemma CleanupJustifiesExpiry(cfg: Config, s: System, now: nat)
    requires TableOk(s.table) && Traced(s) && ExpiryJustified(cfg, s) && Enabled(s, Cleanup(now))
    ensures ExpiryJustified(cfg, Step(cfg, s, Cleanup(now)))
  {
    hide CleanupSpec, Losses, Traced, TableOk;
    var table := CleanupSpec(s.table, cfg.ttl, cfg.evictTimeout, now);
    CleanupAuthStep(s.table, cfg.ttl, cfg.evictTimeout, now);
    LossesAreStale(cfg, s, table, now, None);
  }

  lemma StepJustifiesExpiry(cfg: Config, s: System, e: Event)
    requires TableOk(s.table) && Traced(s) && ExpiryJustified(cfg, s) && Enabled(s, e)
    ensures ExpiryJustified(cfg, Step(cfg, s, e))
  {
    match e
    case Store(key, now) => StoreJustifiesExpiry(cfg, s, key, now);
    case Cleanup(now) => CleanupJustifiesExpiry(cfg, s, now);
    case Commit(t) =>
    case _ => QuietStep(cfg, s, e);
  }

  lemma LossesAreStale(cfg: Config, s: System, u: Table, now: nat, key: Option<Key>)
    requires Traced(s)
    requires forall k | k in s.table.auth && k !in u.auth :: !Fresh(now, s.table.auth[k].at, cfg.ttl)
    requires forall k | k in s.table.auth && k in u.auth :: u.auth[k] == s.table.auth[k] || Some(k) == key
    ensures forall x | x in Losses(s, u, now, key) && Losses(s, u, now, key)[x].Expired? ::
              Losses(s, u, now, key)[x].when == now && x < |s.instants| && !Fresh(now, s.instants[x], cfg.ttl)
  {}

  // ---------------------------------------------------------------- every run

  ghost function Next(cfg: Config, s: System, e: Event): System {
    if Enabled(s, e) then Step(cfg, s, e) else s
  }

  /** The state after `events`; an event that cannot happen changes nothing. */
  ghost function Run(cfg: Config, events: seq<Event>): System {
    if events == [] then INIT else Next(cfg, Run(cfg, events[..|events| - 1]), events[|events| - 1])
  }

  lemma RunSnoc(cfg: Config, events: seq<Event>, e: Event)
    ensures Run(cfg, events + [e]) == Next(cfg, Run(cfg, events), e)
  {
    assert (events + [e])[..|events|] == events;
  }

  lemma {:induction false} RunKeepsInv(cfg: Config, events: seq<Event>)
    ensures Inv(cfg, Run(cfg, events))
  {
    if events == [] {
      assert Serials(INIT.table) == {};
    } else {
      var s, e := Run(cfg, events[..|events| - 1]), events[|events| - 1];
      RunKeepsInv(cfg, events[..|events| - 1]);
      if Enabled(s, e) {
        hide Step, TableOk, NoLostWakeup, Traced, Conserved, Matched, ExpiryJustified;
        StepKeepsTable(cfg, s, e);
        StepLosesNoWakeup(cfg, s, e);
        StepKeepsTraces(cfg, s, e);
        StepConserves(cfg, s, e);
        StepKeepsMatch(cfg, s, e);
        StepJustifiesExpiry(cfg, s, e);
      }
    }
  }

  /** No lost wakeup: a parked task that was not notified is still subscribed to the waiter of its key,
      and the authentication it waits for is not in the table. */
  lemma ParkedTasksCanBeWoken(cfg: Config, events: seq<Event>, t: nat)
    ensures var s := Run(cfg, events);
            t in s.tasks && s.tasks[t].phase.Parked? && !Fired(s, s.tasks[t].phase) ==>
              var key := s.tasks[t].key;
              key in s.table.waiting && s.table.waiting[key].notify == s.tasks[t].phase.notify && key !in s.table.auth
  {
    RunKeepsInv(cfg, events);
  }

  lemma TablesStayBounded(cfg: Config, events: seq<Event>)
    ensures var t := Run(cfg, events).table;
            t.auth.Keys !! t.waiting.Keys && |t.auth| <= CAPACITY && |t.waiting| <= CAPACITY
  {
    RunKeepsInv(cfg, events);
  }

  /** An accepted store notifies every task parked on its key. */
  lemma AcceptedStoreWakesAll(cfg: Config, events: seq<Event>, key: Key, now: nat, t: nat)
    requires Enabled(Run(cfg, events), Store(key, now))
    requires var s := Run(cfg, events);
             t in s.tasks && s.tasks[t].phase.Parked? && s.tasks[t].key == key
    ensures var s' := Run(cfg, events + [Store(key, now)]);
            |s'.keys| - 1 !in s'.fates ==> Fired(s', s'.tasks[t].phase)
  {
    var s, s' := Run(cfg, events), Run(cfg, events + [Store(key, now)]);
    RunSnoc(cfg, events, Store(key, now));
    RunKeepsInv(cfg, events + [Store(key, now)]);
    ParkedTasksCanBeWoken(cfg, events + [Store(key, now)], t);
    hide StoreSpec, Losses, TableOk, NoLostWakeup, Matched, ExpiryJustified, Run;
    assert s'.tasks == s.tasks && |s'.keys| == |s.keys| + 1 && s'.keys[|s.keys|] == key;
    SerialIsAtItsKey(s', |s.keys|);
  }

  // ---------------------------------------------------------------- conservation

  ghost function StoresOf(s: System, key: Key): set<nat> {
    set x: nat | x < |s.keys| && s.keys[x] == key
  }

  ghost function Rejections(s: System, key: Key): set<nat> {
    set x | x in StoresOf(s, key) && x in s.fates && s.fates[x].Rejected?
  }

  ghost function Overwrites(s: System, key: Key): set<nat> {
    set x | x in StoresOf(s, key) && x in s.fates && s.fates[x].Overwritten?
  }

  ghost function Expiries(s: System, key: Key): set<nat> {
    set x | x in StoresOf(s, key) && x in s.fates && s.fates[x].Expired?
  }

  ghost function Consumptions(s: System, key: Key): set<nat> {
    set x | x in StoresOf(s, key) && x in s.fates && s.fates[x].Consumed?
  }

  /** The `evict` calls for `key` that returned an authentication. */
  ghost function Successes(s: System, key: Key): set<nat> {
    set t | t in s.tasks && s.tasks[t].key == key && s.tasks[t].phase.Evicted?
  }

  /** Per key, in every run: stores = rejected + overwritten + expired + successful evicts + (1 if an entry is
      present). */
  lemma StoresAreConserved(cfg: Config, events: seq<Event>, key: Key)
    ensures var s := Run(cfg, events);
            |StoresOf(s, key)| == |Rejections(s, key)| + |Overwrites(s, key)| + |Expiries(s, key)|
                                  + |Successes(s, key)| + (if key in s.table.auth then 1 else 0)
  {
    RunKeepsInv(cfg, events);
    hide Run, TableOk, NoLostWakeup, ExpiryJustified;
    ConservedByKey(Run(cfg, events), key);
  }

  lemma ConservedByKey(s: System, key: Key)
    requires Traced(s) && Conserved(s) && Matched(s)
    ensures |StoresOf(s, key)| == |Rejections(s, key)| + |Overwrites(s, key)| + |Expiries(s, key)|
                                  + |Successes(s, key)| + (if key in s.table.auth then 1 else 0)
  {
    hide StoresOf, Settled, Rejections, Overwrites, Expiries, Consumptions, Successes;
    SettledOrPresent(s, key);
    SuccessesMatchConsumptions(s, key);
    SettledSplit(s, key, Settled(s, key));
  }

  ghost function Settled(s: System, key: Key): set<nat> {
    set x | x in StoresOf(s, key) && x in s.fates
  }

  lemma SettledOrPresent(s: System, key: Key)
    requires Traced(s) && Conserved(s)
    ensures |StoresOf(s, key)| == |Settled(s, key)| + if key in s.table.auth then 1 else 0
  {
    var settled := Settled(s, key);
    PresentSerial(s, key);
    hide Traced, Conserved, StoresOf;
    if key in s.table.auth {
      assert StoresOf(s, key) == settled + {s.table.auth[key].auth};
    } else {
      assert StoresOf(s, key) == settled;
    }
  }

  lemma SettledSplit(s: System, key: Key, settled: set<nat>)
    requires settled == Settled(s, key)
    ensures |settled| == |Rejections(s, key)| + |Overwrites(s, key)| + |Expiries(s, key)| + |Consumptions(s, key)|
  {
    hide StoresOf;
    var r, o, x, c := Rejections(s, key), Overwrites(s, key), Expiries(s, key), Consumptions(s, key);
    assert settled == r + o + x + c;
    assert r !! o !! x !! c;
    hide Rejections, Overwrites, Expiries, Consumptions;
    assert |r + o + x + c| == |r| + |o| + |x| + |c|;
  }

  lemma PresentSerial(s: System, key: Key)
    requires Traced(s) && Conserved(s)
    ensures forall n | n in StoresOf(s, key) :: n in s.fates <==> !(key in s.table.auth && s.table.auth[key].auth == n)
    ensures key in s.table.auth ==> s.table.auth[key].auth in StoresOf(s, key)
  {}

  lemma SuccessesMatchConsumptions(s: System, key: Key)
    requires Matched(s)
    ensures |Successes(s, key)| == |Consumptions(s, key)|
  {
    var removedBy := (t: nat) requires t in s.tasks && s.tasks[t].phase.Evicted? => s.tasks[t].phase.removed;
    forall t | t in Successes(s, key)
      ensures removedBy(t) in Consumptions(s, key) && s.fates[removedBy(t)] == Consumed(t)
    {
      assert ReturnOk(s, t);
    }
    InjectionSize(Successes(s, key), Consumptions(s, key), removedBy);
    var consumer := (x: nat) requires x in s.fates && s.fates[x].Consumed? => s.fates[x].task;
    forall x | x in Consumptions(s, key)
      ensures consumer(x) in Successes(s, key) && s.tasks[consumer(x)].phase.removed == x
    {
      assert ReturnOk(s, consumer(x));
    }
    InjectionSize(Consumptions(s, key), Successes(s, key), consumer);
  }

  /** Once settled, a store's fate never changes. */
  lemma FatesAreFinal(cfg: Config, events: seq<Event>, e: Event, x: nat)
    requires x in Run(cfg, events).fates
    ensures var s' := Run(cfg, events + [e]);
            x in s'.fates && s'.fates[x] == Run(cfg, events).fates[x]
  {
    RunKeepsInv(cfg, events);
    RunSnoc(cfg, events, e);
    var s := Run(cfg, events);
    if Enabled(s, e) {
      if e.Commit? {
        var t := e.task;
        if s.tasks[t].key in s.table.auth {
          assert s.table.auth[s.tasks[t].key].auth in Serials(s.table);
        }
      } else {
        FatesGrow(cfg, s, e);
      }
    }
  }

  /** No two stores of one key share an instant. */
  ghost predicate DistinctInstants(s: System) {
    && |s.keys| == |s.instants|
    && forall i, j | 0 <= i < j < |s.keys| && s.keys[i] == s.keys[j] :: s.instants[i] != s.instants[j]
  }

  /** With distinct store instants a successful `evict` returns the very entry it removed,
      so no authentication is handed out twice. */
  lemma EachAuthReturnedOnce(cfg: Config, events: seq<Event>, t: nat, u: nat)
    requires var s := Run(cfg, events);
             && DistinctInstants(s)
             && t in s.tasks && s.tasks[t].phase.Evicted?
             && u in s.tasks && s.tasks[u].phase.Evicted?
    ensures var s := Run(cfg, events);
            && s.tasks[t].phase.returned == s.tasks[t].phase.removed
            && (s.tasks[t].phase.returned == s.tasks[u].phase.returned ==> t == u)
  {
    RunKeepsInv(cfg, events);
    var s := Run(cfg, events);
    hide Run, TableOk, NoLostWakeup, Traced, Conserved, ExpiryJustified;
    ReturnsWhatItRemoved(s, t);
    ReturnsWhatItRemoved(s, u);
  }

  lemma ReturnsWhatItRemoved(s: System, t: nat)
    requires Matched(s) && DistinctInstants(s) && t in s.tasks && s.tasks[t].phase.Evicted?
    ensures var phase := s.tasks[t].phase;
            phase.returned == phase.removed && phase.removed in s.fates && s.fates[phase.removed] == Consumed(t)
  {
    assert ReturnOk(s, t);
  }

  /** Two tasks were handed the authentication of one store. */
  ghost predicate ReturnedTwice(s: System) {
    exists t, u :: t in s.tasks && u in s.tasks && t != u && s.tasks[t].phase.Evicted? && s.tasks[u].phase.Evicted?
                   && s.tasks[t].phase.returned == s.tasks[u].phase.returned
  }
}
