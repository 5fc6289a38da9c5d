/** server/src/inflight.rs: which histories of stores let one authentication be handed out twice.

    `evict` recognises an entry by its store instant only. The runs below never leave an entry in the table for longer
    than they need it, so no store is refused and every history of stores can be played. */
module InFlightTwice {
  import opened Common
  import opened InFlight
  import opened InFlightRuns

  /** A state without waiters, apart from what became of past stores. */
  ghost predicate Looks(s: System, clock: nat, auth: map<Key, Stored>, tasks: map<nat, Task>, keys: seq<Key>,
      instants: seq<nat>) {
    && s.clock == clock && s.table.auth == auth && s.table.waiting == map[]
    && s.tasks == tasks && s.keys == keys && s.instants == instants
  }

  // ---------------------------------------------------------------- single events

  lemma DoStore(cfg: Config, events: seq<Event>, clock: nat, tasks: map<nat, Task>, keys: seq<Key>, instants: seq<nat>,
      key: Key, now: nat)
    returns (longer: seq<Event>)
    requires Looks(Run(cfg, events), clock, map[], tasks, keys, instants) && now <= clock
    ensures Looks(Run(cfg, longer), clock, map[key := Stored(|keys|, now)], tasks, keys + [key], instants + [now])
  {
    longer := events + [Store(key, now)];
    RunSnoc(cfg, events, Store(key, now));
    var s := Run(cfg, events);
    hide Run, Losses, RetainAuth;
    assert s.table.waiting - {key} == map[];
  }

  lemma DoBegin(cfg: Config, events: seq<Event>, clock: nat, auth: map<Key, Stored>, tasks: map<nat, Task>,
      keys: seq<Key>, instants: seq<nat>, t: nat, key: Key)
    returns (longer: seq<Event>)
    requires Looks(Run(cfg, events), clock, auth, tasks, keys, instants) && t !in tasks
    ensures Looks(Run(cfg, longer), clock, auth, tasks[t := Task(key, clock + cfg.evictTimeout, Claiming)], keys,
        instants)
  {
    longer := events + [Begin(t, key)];
    RunSnoc(cfg, events, Begin(t, key));
    hide Run;
  }

  lemma DoClaim(cfg: Config, events: seq<Event>, clock: nat, auth: map<Key, Stored>, tasks: map<nat, Task>,
      keys: seq<Key>, instants: seq<nat>, t: nat)
    returns (longer: seq<Event>)
    requires Looks(Run(cfg, events), clock, auth, tasks, keys, instants)
    requires t in tasks && tasks[t].phase.Claiming? && tasks[t].key in auth
    ensures Looks(Run(cfg, longer), clock, auth, tasks[t := tasks[t].(phase := Committing(auth[tasks[t].key]))],
        keys, instants)
  {
    var claimed := events + [Claim(t)];
    RunSnoc(cfg, events, Claim(t));
    longer := claimed + [Authenticate(t, true)];
    RunSnoc(cfg, claimed, Authenticate(t, true));
    hide Run;
  }

  lemma DoCommit(cfg: Config, events: seq<Event>, clock: nat, auth: map<Key, Stored>, tasks: map<nat, Task>,
      keys: seq<Key>, instants: seq<nat>, t: nat)
    returns (longer: seq<Event>)
    requires Looks(Run(cfg, events), clock, auth, tasks, keys, instants)
    requires t in tasks && tasks[t].phase.Committing? && tasks[t].key in auth
    requires auth == map[tasks[t].key := auth[tasks[t].key]] && tasks[t].phase.claimed.at == auth[tasks[t].key].at
    ensures Looks(Run(cfg, longer), clock, map[],
                  tasks[t := tasks[t].(phase := Evicted(tasks[t].phase.claimed.auth, auth[tasks[t].key].auth))],
                  keys, instants)
  {
    longer := events + [Commit(t)];
    RunSnoc(cfg, events, Commit(t));
    hide Run;
    assert auth - {tasks[t].key} == map[];
  }

  lemma {:induction false} FreshTask(ids: set<nat>) returns (t: nat)
    ensures forall u | u in ids :: u < t
  {
    if ids == {} {
      t := 0;
    } else {
      var u :| u in ids;
      var bound := FreshTask(ids - {u});
      t := Max(bound, u + 1);
      forall v | v in ids ensures v < t { assert v == u || v in ids - {u}; }
    }
  }

  // ---------------------------------------------------------------- stretches of a history

  /** The tasks of `tasks` are untouched. */
  ghost predicate Grows(tasks: map<nat, Task>, more: map<nat, Task>) {
    forall t | t in tasks :: t in more && more[t] == tasks[t]
  }

  /** A store whose entry is consumed at once. */
  lemma StoreAndConsume(cfg: Config, events: seq<Event>, clock: nat, tasks: map<nat, Task>, keys: seq<Key>,
      instants: seq<nat>, key: Key, now: nat)
    returns (longer: seq<Event>, more: map<nat, Task>)
    requires Looks(Run(cfg, events), clock, map[], tasks, keys, instants) && now <= clock
    ensures Looks(Run(cfg, longer), clock, map[], more, keys + [key], instants + [now]) && Grows(tasks, more)
  {
    hide Run, Looks;
    var t := FreshTask(tasks.Keys);
    var auth := map[key := Stored(|keys|, now)];
    longer := DoStore(cfg, events, clock, tasks, keys, instants, key, now);
    longer := DoBegin(cfg, longer, clock, auth, tasks, keys + [key], instants + [now], t, key);
    more := tasks[t := Task(key, clock + cfg.evictTimeout, Claiming)];
    longer := DoClaim(cfg, longer, clock, auth, more, keys + [key], instants + [now], t);
    more := more[t := more[t].(phase := Committing(auth[key]))];
    longer := DoCommit(cfg, longer, clock, auth, more, keys + [key], instants + [now], t);
    more := more[t := more[t].(phase := Evicted(|keys|, |keys|))];
  }

  /** A whole history of such stores. */
  lemma {:induction false} PlayHistory(cfg: Config, events: seq<Event>, clock: nat, tasks: map<nat, Task>,
      keys: seq<Key>, instants: seq<nat>, ks: seq<Key>, ats: seq<nat>)
    returns (longer: seq<Event>, more: map<nat, Task>)
    requires Looks(Run(cfg, events), clock, map[], tasks, keys, instants)
    requires |ks| == |ats| && forall k | 0 <= k < |ats| :: ats[k] <= clock
    ensures Looks(Run(cfg, longer), clock, map[], more, keys + ks, instants + ats) && Grows(tasks, more)
    decreases |ks|
  {
    hide Run, Looks;
    if ks == [] {
      longer, more := events, tasks;
      assert keys + ks == keys && instants + ats == instants;
    } else {
      var first, later := StoreAndConsume(cfg, events, clock, tasks, keys, instants, ks[0], ats[0]);
      longer, more := PlayHistory(cfg, first, clock, later, keys + [ks[0]], instants + [ats[0]], ks[1..], ats[1..]);
      assert keys + [ks[0]] + ks[1..] == keys + ks && instants + [ats[0]] + ats[1..] == instants + ats;
    }
  }

  /** Two packets claim and verify the entry of one store, and the first of them takes it. */
  lemma BothVerify(cfg: Config, events: seq<Event>, clock: nat, tasks: map<nat, Task>, keys: seq<Key>,
      instants: seq<nat>, key: Key, at: nat, t: nat, u: nat)
    returns (longer: seq<Event>)
    requires Looks(Run(cfg, events), clock, map[], tasks, keys, instants) && at <= clock
    requires t !in tasks && u !in tasks && t != u
    ensures var n, deadline := |keys|, clock + cfg.evictTimeout;
            Looks(Run(cfg, longer), clock, map[],
                  tasks[t := Task(key, deadline, Evicted(n, n))][u := Task(key, deadline, Committing(Stored(n, at)))],
                  keys + [key], instants + [at])
  {
    hide Run, Looks;
    var n, deadline, k, i := |keys|, clock + cfg.evictTimeout, keys + [key], instants + [at];
    var auth, start := map[key := Stored(n, at)], Task(key, deadline, Claiming);
    var verified := start.(phase := Committing(Stored(n, at)));
    longer := DoStore(cfg, events, clock, tasks, keys, instants, key, at);
    longer := DoBegin(cfg, longer, clock, auth, tasks, k, i, t, key);
    longer := DoBegin(cfg, longer, clock, auth, tasks[t := start], k, i, u, key);
    longer := DoClaim(cfg, longer, clock, auth, tasks[t := start][u := start], k, i, t);
    assert tasks[t := start][u := start][t := verified] == tasks[t := verified][u := start];
    longer := DoClaim(cfg, longer, clock, auth, tasks[t := verified][u := start], k, i, u);
    assert tasks[t := verified][u := start][u := verified] == tasks[t := verified][u := verified];
    longer := DoCommit(cfg, longer, clock, auth, tasks[t := verified][u := verified], k, i, t);
    assert tasks[t := verified][u := verified][t := start.(phase := Evicted(n, n))]
           == tasks[t := start.(phase := Evicted(n, n))][u := verified];
  }

  /** The store that brings the entry's instant back, and the second packet that takes it for the entry it verified. */
  lemma SecondCommits(cfg: Config, events: seq<Event>, clock: nat, tasks: map<nat, Task>, keys: seq<Key>,
      instants: seq<nat>, key: Key, at: nat, u: nat, n: nat)
    returns (longer: seq<Event>)
    requires Looks(Run(cfg, events), clock, map[], tasks, keys, instants) && at <= clock
    requires u in tasks && tasks[u].key == key && tasks[u].phase == Committing(Stored(n, at))
    ensures Looks(Run(cfg, longer), clock, map[], tasks[u := tasks[u].(phase := Evicted(n, |keys|))],
                  keys + [key], instants + [at])
  {
    hide Run, Looks;
    var auth := map[key := Stored(|keys|, at)];
    longer := DoStore(cfg, events, clock, tasks, keys, instants, key, at);
    longer := DoCommit(cfg, longer, clock, auth, tasks, keys + [key], instants + [at], u);
  }

  lemma {:induction false} LatestInstant(ats: seq<nat>) returns (clock: nat)
    ensures forall k | 0 <= k < |ats| :: ats[k] <= clock
  {
    if ats == [] {
      clock := 0;
    } else {
      var rest := LatestInstant(ats[1..]);
      clock := Max(rest, ats[0]);
    }
  }

  lemma AtTheClock(cfg: Config, clock: nat) returns (events: seq<Event>)
    ensures Looks(Run(cfg, events), clock, map[], map[], [], [])
  {
    assert Run(cfg, []) == INIT;
    RunSnoc(cfg, [], Tick(clock));
    events := [] + [Tick(clock)];
  }

  // ---------------------------------------------------------------- the theorem

  /** The authentication of store number `i` was returned to two callers. */
  ghost predicate ReturnedToTwo(s: System, i: nat) {
    exists t, u :: t in s.tasks && u in s.tasks && t != u && s.tasks[t].phase.Evicted? && s.tasks[u].phase.Evicted?
                   && s.tasks[t].phase.returned == s.tasks[u].phase.returned == i
  }

  /** `t` has taken the authentication of store `i`, and `u` is about to take whatever has its instant. */
  ghost predicate HalfWay(tasks: map<nat, Task>, key: Key, at: nat, i: nat, t: nat, u: nat) {
    && t != u && t in tasks && tasks[t].phase == Evicted(i, i)
    && u in tasks && tasks[u].key == key && tasks[u].phase == Committing(Stored(i, at))
  }

  lemma FirstReturn(cfg: Config, clock: nat, ks: seq<Key>, ats: seq<nat>, i: nat)
    returns (events: seq<Event>, tasks: map<nat, Task>, t: nat, u: nat)
    requires |ks| == |ats| && i < |ks| && forall k | 0 <= k < |ats| :: ats[k] <= clock
    ensures Looks(Run(cfg, events), clock, map[], tasks, ks[..i + 1], ats[..i + 1])
    ensures HalfWay(tasks, ks[i], ats[i], i, t, u)
  {
    hide Run, Looks;
    events := AtTheClock(cfg, clock);
    events, tasks := PlayHistory(cfg, events, clock, map[], [], [], ks[..i], ats[..i]);
    assert [] + ks[..i] == ks[..i] && [] + ats[..i] == ats[..i];
    t := FreshTask(tasks.Keys);
    u := t + 1;
    events := BothVerify(cfg, events, clock, tasks, ks[..i], ats[..i], ks[i], ats[i], t, u);
    assert ks[..i] + [ks[i]] == ks[..i + 1] && ats[..i] + [ats[i]] == ats[..i + 1];
    var deadline := clock + cfg.evictTimeout;
    tasks := tasks[t := Task(ks[i], deadline, Evicted(i, i))][u :=
        Task(ks[i], deadline, Committing(Stored(i, ats[i])))];
  }

  /** The history goes on up to any store and beyond. */
  lemma PlaySlice(cfg: Config, events: seq<Event>, clock: nat, tasks: map<nat, Task>, ks: seq<Key>, ats: seq<nat>,
      a: nat, b: nat)
    returns (longer: seq<Event>, more: map<nat, Task>)
    requires |ks| == |ats| && a <= b <= |ks| && forall k | 0 <= k < |ats| :: ats[k] <= clock
    requires Looks(Run(cfg, events), clock, map[], tasks, ks[..a], ats[..a])
    ensures Looks(Run(cfg, longer), clock, map[], more, ks[..b], ats[..b]) && Grows(tasks, more)
  {
    hide Run, Looks;
    longer, more := PlayHistory(cfg, events, clock, tasks, ks[..a], ats[..a], ks[a..b], ats[a..b]);
    assert ks[..a] + ks[a..b] == ks[..b] && ats[..a] + ats[a..b] == ats[..b];
  }

  /** Any two stores of one key at one instant: some run with that very history returns the first authentication
      twice. */
  lemma AnyPairReturnsTwice(cfg: Config, ks: seq<Key>, ats: seq<nat>, i: nat, j: nat) returns (events: seq<Event>)
    requires |ks| == |ats| && i < j < |ks| && ks[i] == ks[j] && ats[i] == ats[j]
    ensures Run(cfg, events).keys == ks && Run(cfg, events).instants == ats && ReturnedToTwo(Run(cfg, events), i)
  {
    hide Run, Looks;
    var clock := LatestInstant(ats);
    var start, tasks, t, u := FirstReturn(cfg, clock, ks, ats, i);
    var middle, waiting := PlaySlice(cfg, start, clock, tasks, ks, ats, i + 1, j);
    var taken := SecondCommits(cfg, middle, clock, waiting, ks[..j], ats[..j], ks[j], ats[j], u, i);
    assert ks[..j] + [ks[j]] == ks[..j + 1] && ats[..j] + [ats[j]] == ats[..j + 1];
    var both := waiting[u := waiting[u].(phase := Evicted(i, j))];
    var more;
    events, more := PlaySlice(cfg, taken, clock, both, ks, ats, j + 1, |ks|);
    assert ks[..|ks|] == ks && ats[..|ks|] == ats;
    Concluded(cfg, events, clock, more, ks, ats, t, u, i);
  }

  lemma Concluded(cfg: Config, events: seq<Event>, clock: nat, tasks: map<nat, Task>, ks: seq<Key>, ats: seq<nat>,
      t: nat, u: nat, i: nat)
    requires Looks(Run(cfg, events), clock, map[], tasks, ks, ats) && t != u
    requires t in tasks && tasks[t].phase.Evicted? && tasks[t].phase.returned == i
    requires u in tasks && tasks[u].phase.Evicted? && tasks[u].phase.returned == i
    ensures Run(cfg, events).keys == ks && Run(cfg, events).instants == ats && ReturnedToTwo(Run(cfg, events), i)
  {
    hide Run;
  }

  ghost predicate HasHistory(s: System, ks: seq<Key>, ats: seq<nat>) { s.keys == ks && s.instants == ats }

  /** A history of stores has a run that hands some authentication out twice if and only if two of its stores put the
      same key at the same instant. */
  lemma SharedInstantReturnsTwice(cfg: Config, ks: seq<Key>, ats: seq<nat>)
    requires |ks| == |ats|
    ensures (exists events :: HasHistory(Run(cfg, events), ks, ats) && ReturnedTwice(Run(cfg, events)))
            <==> exists i, j :: 0 <= i < j < |ks| && ks[i] == ks[j] && ats[i] == ats[j]
  {
    if i, j :| 0 <= i < j < |ks| && ks[i] == ks[j] && ats[i] == ats[j] {
      var events := AnyPairReturnsTwice(cfg, ks, ats, i, j);
      hide Run;
      assert HasHistory(Run(cfg, events), ks, ats) && ReturnedTwice(Run(cfg, events));
    } else {
      forall events | HasHistory(Run(cfg, events), ks, ats) ensures !ReturnedTwice(Run(cfg, events)) {
        NotTwice(cfg, events);
      }
    }
  }

  lemma NotTwice(cfg: Config, events: seq<Event>)
    requires DistinctInstants(Run(cfg, events))
    ensures !ReturnedTwice(Run(cfg, events))
  {
    var s := Run(cfg, events);
    hide Run, DistinctInstants;
    forall t, u | t in s.tasks && u in s.tasks && s.tasks[t].phase.Evicted? && s.tasks[u].phase.Evicted?
                  && s.tasks[t].phase.returned == s.tasks[u].phase.returned
      ensures t == u
    {
      EachAuthReturnedOnce(cfg, events, t, u);
    }
  }
}
