/** server/src/inflight.rs: matching UDP packets with authentications that may arrive before or after them.

    `Table` is the value behind the mutex and the `…Spec` functions are its critical sections.
    The class `InFlightUnderlayKey` updates its two maps in place and is proved against them. */
module InFlight {
  import opened Common

  /** MAX_IN_FLIGHT_UNDERLAY_ENTRIES. */
  const CAPACITY: nat := 10_000

  /** The 32-byte salt, as a number. */
  datatype Key = Key(salt: nat)

  /** An `UnderlayAuth`; the table only stores and clones it, so its identity is all that matters. */
  type Auth = nat

  datatype Stored = Stored(auth: Auth, at: nat)

  /** A `Notify` handle is an index into `Table.generations`. */
  datatype Waiter = Waiter(notify: nat, at: nat)

  datatype Table = Table(auth: map<Key, Stored>, waiting: map<Key, Waiter>, generations: seq<nat>)

  predicate Fresh(now: nat, at: nat, limit: nat) {
    Age(now, at) <= limit
  }

  function RetainAuth(auth: map<Key, Stored>, now: nat, ttl: nat): map<Key, Stored> {
    map k | k in auth && Fresh(now, auth[k].at, ttl) :: auth[k]
  }

  function RetainWaiting(waiting: map<Key, Waiter>, now: nat, limit: nat): map<Key, Waiter> {
    map k | k in waiting && Fresh(now, waiting[k].at, limit) :: waiting[k]
  }

  function Stale(waiting: map<Key, Waiter>, now: nat, limit: nat): set<nat> {
    set k | k in waiting && !Fresh(now, waiting[k].at, limit) :: waiting[k].notify
  }

  /** `notify_waiters` on every handle in `fired`. */
  function Fire(generations: seq<nat>, fired: set<nat>): seq<nat> {
    seq(|generations|, i requires 0 <= i < |generations| => if i in fired then generations[i] + 1 else generations[i])
  }

  function Insert(t: Table, key: Key, a: Auth, now: nat): Table {
    Table(t.auth[key := Stored(a, now)],
          t.waiting - {key},
          Fire(t.generations, if key in t.waiting then {t.waiting[key].notify} else {}))
  }

  function StoreSpec(t: Table, ttl: nat, key: Key, a: Auth, now: nat): (Table, bool) {
    if key !in t.auth && |t.auth| >= CAPACITY then
      var kept := RetainAuth(t.auth, now, ttl);
      if |kept| >= CAPACITY then (t.(auth := kept), false) else (Insert(t.(auth := kept), key, a, now), true)
    else
      (Insert(t, key, a, now), true)
  }

  function CommitSpec(t: Table, key: Key, at: nat): (Table, bool) {
    if key in t.auth && t.auth[key].at == at then (t.(auth := t.auth - {key}), true) else (t, false)
  }

  datatype Registration = Arrived | Full | Subscribed(notify: nat, generation: nat)

  function PurgeWaiting(t: Table, limit: nat, now: nat): Table {
    Table(t.auth, RetainWaiting(t.waiting, now, limit), Fire(t.generations, Stale(t.waiting, now, limit)))
  }

  function Subscribe(t: Table, key: Key, now: nat): (Table, Registration)
    requires NotifiesAllocated(t)
  {
    if key in t.waiting then
      (t, Subscribed(t.waiting[key].notify, t.generations[t.waiting[key].notify]))
    else
      var n := |t.generations|;
      (t.(waiting := t.waiting[key := Waiter(n, now)], generations := t.generations + [0]), Subscribed(n, 0))
  }

  function RegisterSpec(t: Table, limit: nat, key: Key, now: nat): (Table, Registration)
    requires NotifiesAllocated(t)
  {
    if key in t.auth then (t, Arrived)
    else if key !in t.waiting && |t.waiting| >= CAPACITY then
      var t' := PurgeWaiting(t, limit, now);
      if |t'.waiting| >= CAPACITY then (t', Full) else Subscribe(t', key, now)
    else Subscribe(t, key, now)
  }

  function CleanupSpec(t: Table, ttl: nat, limit: nat, now: nat): Table {
    PurgeWaiting(t.(auth := RetainAuth(t.auth, now, ttl)), limit, now)
  }

  predicate NotifiesAllocated(t: Table) {
    && (forall k | k in t.waiting :: t.waiting[k].notify < |t.generations|)
    && (forall k, k' | k in t.waiting && k' in t.waiting && t.waiting[k].notify == t.waiting[k'].notify :: k == k')
  }

  /** What every critical section keeps: disjoint keys, both tables within the cap, one handle a key. */
  predicate TableOk(t: Table) {
    && t.auth.Keys !! t.waiting.Keys
    && |t.auth| <= CAPACITY
    && |t.waiting| <= CAPACITY
    && NotifiesAllocated(t)
  }

  /** The purge when only the keys outside `pending` have been visited. */
  ghost function PurgeVisited(t: Table, pending: set<Key>, limit: nat, now: nat): Table {
    Table(t.auth,
          map k | k in t.waiting && (k in pending || Fresh(now, t.waiting[k].at, limit)) :: t.waiting[k],
          Fire(t.generations, StaleVisited(t.waiting, pending, limit, now)))
  }

  ghost function StaleVisited(waiting: map<Key, Waiter>, pending: set<Key>, limit: nat, now: nat): set<nat> {
    set k | k in waiting && k !in pending && !Fresh(now, waiting[k].at, limit) :: waiting[k].notify
  }

  lemma PurgeLimits(t: Table, limit: nat, now: nat)
    ensures PurgeVisited(t, t.waiting.Keys, limit, now) == t
    ensures PurgeVisited(t, {}, limit, now) == PurgeWaiting(t, limit, now)
  {}

  lemma PurgeVisitsOne(t: Table, pending: set<Key>, k: Key, limit: nat, now: nat)
    requires NotifiesAllocated(t) && k in pending && pending <= t.waiting.Keys
    ensures k in PurgeVisited(t, pending, limit, now).waiting
        && PurgeVisited(t, pending, limit, now).waiting[k] == t.waiting[k]
    ensures PurgeVisited(t, pending - {k}, limit, now) ==
            var u := PurgeVisited(t, pending, limit, now);
            if Fresh(now, t.waiting[k].at, limit) then u
            else Table(u.auth, u.waiting - {k}, Fire(u.generations, {t.waiting[k].notify}))
  {
    var u, v := PurgeVisited(t, pending, limit, now), PurgeVisited(t, pending - {k}, limit, now);
    var seen, seen' := StaleVisited(t.waiting, pending, limit, now), StaleVisited(t.waiting, pending - {k}, limit, now);
    if Fresh(now, t.waiting[k].at, limit) {
      assert seen' == seen;
      assert v.waiting == u.waiting;
    } else {
      assert seen' == seen + {t.waiting[k].notify};
      assert t.waiting[k].notify !in seen;
      assert v.generations == Fire(u.generations, {t.waiting[k].notify});
      assert v.waiting == u.waiting - {k};
    }
  }

  // ---------------------------------------------------------------- the object

  class InFlightUnderlayKey {
    const ttl: nat
    const evictTimeout: nat
    var auth: map<Key, Stored>
    var waiting: map<Key, Waiter>
    var generations: seq<nat>

    function View(): Table
      reads this
    {
      Table(auth, waiting, generations)
    }

    ghost predicate Valid()
      reads this
    {
      TableOk(View())
    }

    constructor (ttl: nat, evictTimeout: nat)
      ensures Valid() && View() == Table(map[], map[], [])
      ensures this.ttl == ttl && this.evictTimeout == evictTimeout
    {
      this.ttl, this.evictTimeout := ttl, evictTimeout;
      auth, waiting, generations := map[], map[], [];
    }

    method NotifyWaiters(n: nat)
      requires n < |generations|
      modifies this`generations
      ensures generations == Fire(old(generations), {n})
    {
      generations := generations[n := generations[n] + 1];
    }

    /** `auth.retain(…)`. */
    method RetainFreshAuth(now: nat)
      modifies this`auth
      ensures auth == RetainAuth(old(auth), now, ttl)
    {
      ghost var before := auth;
      var keys := auth.Keys;
      while keys != {}
        invariant keys <= before.Keys
        invariant auth == map k | k in before && (k in keys || Fresh(now, before[k].at, ttl)) :: before[k]
        decreases |keys|
      {
        var k :| k in keys;
        keys := keys - {k};
        if !Fresh(now, auth[k].at, ttl) {
          auth := auth - {k};
        }
      }
    }

    /** `waiting.retain(…)`: a waiter that is dropped is notified first. */
    method RetainFreshWaiting(now: nat)
      requires Valid()
      modifies this`waiting, this`generations
      ensures Valid() && View() == PurgeWaiting(old(View()), evictTimeout, now)
    {
      ghost var t := View();
      PurgeKeepsTable(t, evictTimeout, now);
      PurgeLimits(t, evictTimeout, now);
      var keys := waiting.Keys;
      while keys != {}
        invariant keys <= t.waiting.Keys
        invariant View() == PurgeVisited(t, keys, evictTimeout, now)
        decreases |keys|
      {
        var k :| k in keys;
        PurgeVisitsOne(t, keys, k, evictTimeout, now);
        keys := keys - {k};
        if !Fresh(now, waiting[k].at, evictTimeout) {
          NotifyWaiters(waiting[k].notify);
          waiting := waiting - {k};
        }
      }
    }

    method InsertAndNotify(key: Key, a: Auth, now: nat)
      requires NotifiesAllocated(View())
      modifies this
      ensures View() == Insert(old(View()), key, a, now)
    {
      auth := auth[key := Stored(a, now)];
      if key in waiting {
        var notify := waiting[key].notify;
        waiting := waiting - {key};
        NotifyWaiters(notify);
      } else {
        assert waiting - {key} == waiting;
        assert Fire(generations, {}) == generations;
      }
    }

    method Store(key: Key, a: Auth, now: nat) returns (ghost accepted: bool)
      requires Valid()
      modifies this
      ensures Valid()
      ensures (View(), accepted) == StoreSpec(old(View()), ttl, key, a, now)
    {
      StoreKeepsTable(View(), ttl, key, a, now);
      if key !in auth && |auth| >= CAPACITY {
        RetainFreshAuth(now);
        if |auth| >= CAPACITY {
          accepted := false;
          return;
        }
      }
      InsertAndNotify(key, a, now);
      accepted := true;
    }

    /** First critical section of `evict`. */
    method Claim(key: Key) returns (claimed: Option<Stored>)
      ensures claimed == if key in auth then Some(auth[key]) else None
    {
      if key in auth {
        claimed := Some(auth[key]);
      } else {
        claimed := None;
      }
    }

    /** Second critical section of `evict`, after the callback verified the claimed entry. */
    method Commit(key: Key, claimedAt: nat) returns (consumed: bool)
      requires Valid()
      modifies this`auth
      ensures Valid()
      ensures (View(), consumed) == CommitSpec(old(View()), key, claimedAt)
    {
      CommitKeepsTable(View(), key, claimedAt);
      if key in auth && auth[key].at == claimedAt {
        auth := auth - {key};
        consumed := true;
      } else {
        consumed := false;
      }
    }

    /** Third critical section of `evict`: join or create the waiter of `key`. */
    method Register(key: Key, now: nat) returns (r: Registration)
      requires Valid()
      modifies this`waiting, this`generations
      ensures Valid()
      ensures (View(), r) == RegisterSpec(old(View()), evictTimeout, key, now)
    {
      hide PurgeWaiting, Subscribe, NotifiesAllocated;
      RegisterKeepsTable(View(), evictTimeout, key, now);
      if key in auth {
        return Arrived;
      }
      if key !in waiting && |waiting| >= CAPACITY {
        RetainFreshWaiting(now);
        if |waiting| >= CAPACITY {
          return Full;
        }
      }
      r := Enlist(key, now);
    }

    /** The entry of `key`, or a new one; subscribed while the lock is held. */
    method Enlist(key: Key, now: nat) returns (r: Registration)
      requires NotifiesAllocated(View())
      modifies this`waiting, this`generations
      ensures (View(), r) == Subscribe(old(View()), key, now)
    {
      if key !in waiting {
        generations := generations + [0];
        waiting := waiting[key := Waiter(|generations| - 1, now)];
      }
      r := Subscribed(waiting[key].notify, generations[waiting[key].notify]);
    }

    method Cleanup(now: nat)
      requires Valid()
      modifies this
      ensures Valid() && View() == CleanupSpec(old(View()), ttl, evictTimeout, now)
    {
      ghost var before := auth;
      RetainFreshAuth(now);
      SubsetSize(auth.Keys, before.Keys);
      RetainFreshWaiting(now);
    }
  }

  // ---------------------------------------------------------------- the table

  lemma InsertKeepsTable(t: Table, key: Key, a: Auth, now: nat)
    requires TableOk(t)
    requires key in t.auth || |t.auth| < CAPACITY
    ensures TableOk(Insert(t, key, a, now))
  {
    hide NotifiesAllocated, Fire;
    InsertKeepsAllocated(t, key, a, now);
    AuthGrows(t.auth, key, Stored(a, now));
    WaitingShrinks(t.waiting, key);
  }

  lemma AuthGrows(auth: map<Key, Stored>, key: Key, entry: Stored)
    ensures |auth[key := entry]| == if key in auth then |auth| else |auth| + 1
  {
    assert auth[key := entry].Keys == auth.Keys + {key};
    if key in auth {
      assert auth.Keys + {key} == auth.Keys;
    }
  }

  lemma WaitingShrinks(waiting: map<Key, Waiter>, key: Key)
    ensures |waiting - {key}| <= |waiting|
  {
    SubsetSize((waiting - {key}).Keys, waiting.Keys);
  }

  lemma InsertKeepsAllocated(t: Table, key: Key, a: Auth, now: nat)
    requires NotifiesAllocated(t)
    ensures NotifiesAllocated(Insert(t, key, a, now))
  {}

  lemma RetainKeepsTable(t: Table, now: nat, ttl: nat)
    requires TableOk(t)
    ensures TableOk(t.(auth := RetainAuth(t.auth, now, ttl)))
  {
    SubsetSize(RetainAuth(t.auth, now, ttl).Keys, t.auth.Keys);
  }

  lemma StoreKeepsTable(t: Table, ttl: nat, key: Key, a: Auth, now: nat)
    requires TableOk(t)
    ensures TableOk(StoreSpec(t, ttl, key, a, now).0)
  {
    RetainKeepsTable(t, now, ttl);
    var kept := t.(auth := RetainAuth(t.auth, now, ttl));
    if key !in t.auth && |t.auth| >= CAPACITY {
      if |kept.auth| < CAPACITY {
        InsertKeepsTable(kept, key, a, now);
      }
    } else {
      InsertKeepsTable(t, key, a, now);
    }
  }

  lemma CommitKeepsTable(t: Table, key: Key, at: nat)
    requires TableOk(t)
    ensures TableOk(CommitSpec(t, key, at).0)
  {
    SubsetSize((t.auth - {key}).Keys, t.auth.Keys);
  }

  lemma PurgeKeepsTable(t: Table, limit: nat, now: nat)
    requires TableOk(t)
    ensures TableOk(PurgeWaiting(t, limit, now))
  {
    SubsetSize(RetainWaiting(t.waiting, now, limit).Keys, t.waiting.Keys);
  }

  lemma SubscribeKeepsTable(t: Table, key: Key, now: nat)
    requires TableOk(t) && key !in t.auth
    requires key in t.waiting || |t.waiting| < CAPACITY
    ensures TableOk(Subscribe(t, key, now).0)
  {
    assert t.waiting[key := Waiter(|t.generations|, now)].Keys == t.waiting.Keys + {key};
  }

  lemma RegisterKeepsTable(t: Table, limit: nat, key: Key, now: nat)
    requires TableOk(t)
    ensures TableOk(RegisterSpec(t, limit, key, now).0)
  {
    if key !in t.auth {
      PurgeKeepsTable(t, limit, now);
      var t' := PurgeWaiting(t, limit, now);
      if key !in t.waiting && |t.waiting| >= CAPACITY {
        if |t'.waiting| < CAPACITY {
          SubscribeKeepsTable(t', key, now);
        }
      } else {
        SubscribeKeepsTable(t, key, now);
      }
    }
  }

  lemma CleanupKeepsTable(t: Table, ttl: nat, limit: nat, now: nat)
    requires TableOk(t)
    ensures TableOk(CleanupSpec(t, ttl, limit, now))
  {
    RetainKeepsTable(t, now, ttl);
    PurgeKeepsTable(t.(auth := RetainAuth(t.auth, now, ttl)), limit, now);
  }

  /** A store is refused exactly when its key is new and the table is full of unexpired entries. */
  lemma StoreRefusedIff(t: Table, ttl: nat, key: Key, a: Auth, now: nat)
    requires TableOk(t)
    ensures !StoreSpec(t, ttl, key, a, now).1 <==>
            key !in t.auth && |t.auth| == CAPACITY && forall k | k in t.auth :: Fresh(now, t.auth[k].at, ttl)
  {
    var kept := RetainAuth(t.auth, now, ttl);
    SubsetSize(kept.Keys, t.auth.Keys);
    if k :| k in t.auth && !Fresh(now, t.auth[k].at, ttl) {
      assert k in t.auth.Keys - kept.Keys;
      ProperSubsetSize(kept.Keys, t.auth.Keys);
    } else {
      assert kept == t.auth;
    }
  }

  /** Unauthenticated waiters neither make a store fail nor change which entries it keeps. */
  lemma WaitersNeverAffectStore(t: Table, u: Table, ttl: nat, limit: nat, key: Key, other: Key, a: Auth, now: nat)
    requires t.auth == u.auth && NotifiesAllocated(t)
    ensures StoreSpec(t, ttl, key, a, now).1 == StoreSpec(u, ttl, key, a, now).1
    ensures StoreSpec(t, ttl, key, a, now).0.auth == StoreSpec(u, ttl, key, a, now).0.auth
    ensures RegisterSpec(t, limit, other, now).0.auth == t.auth
  {
    RegisterKeepsAuth(t, limit, other, now);
    hide RegisterSpec, NotifiesAllocated, RetainAuth, Fire;
  }

  lemma RegisterKeepsAuth(t: Table, limit: nat, key: Key, now: nat)
    requires NotifiesAllocated(t)
    ensures RegisterSpec(t, limit, key, now).0.auth == t.auth
  {
    hide Fire;
  }
}
