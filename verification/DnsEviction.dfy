/** server/src/server.rs, which entries `resolve_udp_target` evicts: the code calls the key at index 0 the oldest one.

    First sequences of stores, then every run of the resolver that never met a stale entry. */
module DnsEviction {
  import opened Common
  import opened Dns
  import opened DnsRuns

  /** The cache after storing `es` in order. */
  function StoreAll(cache: seq<Entry>, es: seq<Entry>): seq<Entry> {
    if es == [] then cache else StoreSpec(StoreAll(cache, es[..|es| - 1]), es[|es| - 1])
  }

  /** Every store finds its key absent, as it does in the resolver (`StoredKeysAreNew`). */
  ghost predicate AllNew(cache: seq<Entry>, es: seq<Entry>) {
    forall k | 0 <= k < |es| :: Absent(StoreAll(cache, es[..k]), es[k].key)
  }

  // ---------------------------------------------------------------- any number of stores

  /** A full cache, by its first entry, the ones that stay, and its last entry. */
  function Window(first: Entry, middle: seq<Entry>, last: Entry): (cache: seq<Entry>)
    ensures |cache| == |middle| + 2
  {
    [first] + middle + [last]
  }

  lemma WindowOf(cache: seq<Entry>)
    requires |cache| == CACHE_MAX
    ensures cache == Window(cache[0], cache[1..CACHE_MAX - 1], cache[CACHE_MAX - 1])
  {}

  /** One store moves the window on. */
  lemma WindowMoves(first: Entry, middle: seq<Entry>, last: Entry, e: Entry)
    requires |middle| == CACHE_MAX - 2 && Absent(Window(first, middle, last), e.key)
    ensures StoreSpec(Window(first, middle, last), e) == Window(last, middle, e)
  {
    var cache := Window(first, middle, last);
    assert cache[1..CACHE_MAX - 1] == middle;
    FullStore(cache, e);
  }

  /** The first entry after `k` stores into a full cache, which is the one that store number `k` pushes out. */
  function Evicted(cache: seq<Entry>, es: seq<Entry>, k: nat): Entry
    requires |cache| == CACHE_MAX && k <= |es|
  {
    if k == 0 then cache[0] else if k == 1 then cache[CACHE_MAX - 1] else es[k - 2]
  }

  function Latest(cache: seq<Entry>, es: seq<Entry>, k: nat): Entry
    requires |cache| == CACHE_MAX && k <= |es|
  {
    if k == 0 then cache[CACHE_MAX - 1] else es[k - 1]
  }

  /** After any number of stores of new keys into a full cache all entries between the first and the last are still the
      old ones, the last is the newest, and the first is the one stored just before it. */
  lemma {:induction false} FullStores(cache: seq<Entry>, es: seq<Entry>, k: nat)
    requires |cache| == CACHE_MAX && AllNew(cache, es) && k <= |es|
    ensures StoreAll(cache, es[..k]) == Window(Evicted(cache, es, k), cache[1..CACHE_MAX - 1], Latest(cache, es, k))
  {
    hide Window, AllNew, Absent, StoreSpec;
    if k == 0 {
      WindowOf(cache);
    } else {
      FullStores(cache, es, k - 1);
      NextStore(cache, es, k - 1);
      WindowMoves(Evicted(cache, es, k - 1), cache[1..CACHE_MAX - 1], Latest(cache, es, k - 1), es[k - 1]);
    }
  }

  lemma NextStore(cache: seq<Entry>, es: seq<Entry>, k: nat)
    requires AllNew(cache, es) && k < |es|
    ensures Absent(StoreAll(cache, es[..k]), es[k].key)
    ensures StoreAll(cache, es[..k + 1]) == StoreSpec(StoreAll(cache, es[..k]), es[k])
  {
    assert es[..k + 1][..k] == es[..k];
  }

  /** Store number `k` drops exactly `Evicted`: the first entry, then the last one, and from the third store on always
      the entry that was stored two stores earlier. */
  lemma EachStoreEvicts(cache: seq<Entry>, es: seq<Entry>, k: nat, x: Entry)
    requires |cache| == CACHE_MAX && Distinct(cache) && AllNew(cache, es) && k < |es|
    ensures var before, after := StoreAll(cache, es[..k]), StoreAll(cache, es[..k + 1]);
            x in before && x !in after <==> x == Evicted(cache, es, k)
  {
    StaysDistinct(cache, es, k);
    FullStores(cache, es, k);
    FullStores(cache, es, k + 1);
    NextStore(cache, es, k);
    hide StoreAll, AllNew, Window, Distinct, StoreSpec;
    WindowLoses(Evicted(cache, es, k), cache[1..CACHE_MAX - 1], Latest(cache, es, k), es[k], x);
  }

  lemma {:induction false} StaysDistinct(cache: seq<Entry>, es: seq<Entry>, k: nat)
    requires |cache| <= CACHE_MAX && Distinct(cache) && k <= |es|
    ensures Distinct(StoreAll(cache, es[..k])) && |StoreAll(cache, es[..k])| <= CACHE_MAX
  {
    hide Distinct, StoreSpec;
    if k == 0 {
      assert es[..k] == [];
    } else {
      StaysDistinct(cache, es, k - 1);
      assert es[..k][..k - 1] == es[..k - 1];
      StoreKeepsCache(StoreAll(cache, es[..k - 1]), es[k - 1]);
    }
  }

  lemma WindowLoses(first: Entry, middle: seq<Entry>, last: Entry, e: Entry, x: Entry)
    requires Distinct(Window(first, middle, last)) && Absent(Window(first, middle, last), e.key)
    ensures x in Window(first, middle, last) && x !in Window(last, middle, e) <==> x == first
  {
    InWindow(first, middle, last, x);
    InWindow(last, middle, e, x);
    InWindow(first, middle, last, first);
    var cache := Window(first, middle, last);
    assert cache[0] == first && cache[|middle| + 1] == last;
    forall i | 0 <= i < |middle| ensures first != middle[i] {
      assert cache[i + 1] == middle[i];
    }
  }

  lemma InWindow(first: Entry, middle: seq<Entry>, last: Entry, x: Entry)
    ensures x in Window(first, middle, last) <==> x == first || x in middle || x == last
  {}

  // ---------------------------------------------------------------- from an empty cache

  /** The cache of a server that has stored `es` since it started. */
  function Stored(es: seq<Entry>): seq<Entry> { StoreAll([], es) }

  ghost predicate AllNewSinceStart(es: seq<Entry>) { AllNew([], es) }

  lemma NextStored(es: seq<Entry>, k: nat)
    requires AllNewSinceStart(es) && k < |es|
    ensures Absent(Stored(es[..k]), es[k].key) && Stored(es[..k + 1]) == StoreSpec(Stored(es[..k]), es[k])
  {
    hide StoreSpec;
    NextStore([], es, k);
  }

  /** The first 256 stores only fill the cache, in order. */
  lemma {:induction false} Filling(es: seq<Entry>, k: nat)
    requires AllNewSinceStart(es) && k <= |es| && k <= CACHE_MAX
    ensures Stored(es[..k]) == es[..k]
  {
    hide AllNewSinceStart, StoreSpec;
    if k > 0 {
      hide Stored;
      Filling(es, k - 1);
      NextStored(es, k - 1);
      RoomyStore(es[..k - 1], es[k - 1]);
      assert es[..k - 1] + [es[k - 1]] == es[..k];
    } else {
      assert es[..k] == [];
    }
  }

  lemma {:induction false} StoreAllSplit(cache: seq<Entry>, a: seq<Entry>, b: seq<Entry>)
    ensures StoreAll(cache, a + b) == StoreAll(StoreAll(cache, a), b)
  {
    hide StoreSpec;
    if b == [] {
      assert a + b == a;
    } else {
      StoreAllSplit(cache, a, b[..|b| - 1]);
      assert (a + b)[..|a + b| - 1] == a + b[..|b| - 1];
    }
  }

  lemma StoredSplit(a: seq<Entry>, b: seq<Entry>)
    ensures Stored(a + b) == StoreAll(Stored(a), b)
  {
    hide StoreAll;
    StoreAllSplit([], a, b);
  }

  /** The stores after the cache was full. */
  lemma AfterFilling(es: seq<Entry>, k: nat)
    requires AllNewSinceStart(es) && CACHE_MAX <= k <= |es|
    ensures Stored(es[..k]) == StoreAll(es[..CACHE_MAX], es[CACHE_MAX..][..k - CACHE_MAX])
  {
    hide StoreAll, Stored, AllNewSinceStart;
    var full, later := es[..CACHE_MAX], es[CACHE_MAX..];
    assert es[..k] == full + later[..k - CACHE_MAX];
    StoredSplit(full, later[..k - CACHE_MAX]);
    Filling(es, CACHE_MAX);
  }

  lemma LaterAreNew(es: seq<Entry>)
    requires AllNewSinceStart(es) && |es| >= CACHE_MAX
    ensures AllNew(es[..CACHE_MAX], es[CACHE_MAX..])
  {
    hide StoreAll, Stored, AllNewSinceStart;
    var later := es[CACHE_MAX..];
    forall k | 0 <= k < |later| ensures Absent(StoreAll(es[..CACHE_MAX], later[..k]), later[k].key) {
      AfterFilling(es, CACHE_MAX + k);
      NextStored(es, CACHE_MAX + k);
      assert later[k] == es[CACHE_MAX + k];
    }
  }

  /** What a store into the full cache drops: the first entry ever stored, then number 255, then always the one stored
      two stores earlier, while numbers 1 to 254 stay for good. */
  function DroppedBy(es: seq<Entry>, k: nat): Entry
    requires CACHE_MAX <= k <= |es|
  {
    if k == CACHE_MAX then es[0] else if k == CACHE_MAX + 1 then es[CACHE_MAX - 1] else es[k - 2]
  }

  lemma FullCache(es: seq<Entry>, k: nat)
    requires AllNewSinceStart(es) && CACHE_MAX <= k <= |es|
    ensures Stored(es[..k]) == Window(DroppedBy(es, k), es[1..CACHE_MAX - 1], es[k - 1])
  {
    hide StoreAll, Stored, AllNew, AllNewSinceStart, Window;
    var full, later := es[..CACHE_MAX], es[CACHE_MAX..];
    LaterAreNew(es);
    AfterFilling(es, k);
    FullStores(full, later, k - CACHE_MAX);
    assert full[1..CACHE_MAX - 1] == es[1..CACHE_MAX - 1];
  }

  lemma FullIsDistinct(es: seq<Entry>)
    requires AllNewSinceStart(es) && |es| >= CACHE_MAX
    ensures Distinct(es[..CACHE_MAX])
  {
    Filling(es, CACHE_MAX);
    StaysDistinct([], es, CACHE_MAX);
    hide StoreAll;
  }

  /** A store drops exactly that entry. */
  lemma StoreDrops(es: seq<Entry>, k: nat, x: Entry)
    requires AllNewSinceStart(es) && CACHE_MAX <= k < |es|
    ensures x in Stored(es[..k]) && x !in Stored(es[..k + 1]) <==> x == DroppedBy(es, k)
  {
    hide StoreAll, Stored, AllNew, AllNewSinceStart, Distinct;
    LaterAreNew(es);
    AfterFilling(es, k);
    AfterFilling(es, k + 1);
    FullIsDistinct(es);
    EachStoreEvicts(es[..CACHE_MAX], es[CACHE_MAX..], k - CACHE_MAX, x);
  }

  /** Nobody in `cache` is older than `x`. */
  predicate IsOldest(cache: seq<Entry>, x: Entry) { forall y | y in cache :: x.at <= y.at }

  /** Stores happen one after the other on a clock that does not run backwards. */
  predicate Ordered(es: seq<Entry>) { forall i, j | 0 <= i < j < |es| :: es[i].at <= es[j].at }

  /** The promise "the oldest entry is evicted" is kept by the first eviction. It is kept by a later one if and only
      if the entry that goes is exactly as old as the second entry ever stored, so never when all instants differ. */
  lemma DropsOldestIff(es: seq<Entry>, k: nat)
    requires AllNewSinceStart(es) && Ordered(es) && CACHE_MAX <= k <= |es|
    ensures IsOldest(Stored(es[..k]), DroppedBy(es, k)) <==> k == CACHE_MAX || DroppedBy(es, k).at == es[1].at
  {
    hide Stored, AllNewSinceStart, Window;
    FullCache(es, k);
    var before, d, middle := Stored(es[..k]), DroppedBy(es, k), es[1..CACHE_MAX - 1];
    assert middle[0] == es[1];
    InWindow(d, middle, es[k - 1], es[1]);
    if k == CACHE_MAX || d.at == es[1].at {
      forall y | y in before ensures d.at <= y.at {
        InWindow(d, middle, es[k - 1], y);
        assert y in middle ==> exists i :: 1 <= i < CACHE_MAX - 1 && es[i] == y;
      }
    }
  }

  // ---------------------------------------------------------------- a witness

  lemma {:induction false} OnlyStored(cache: seq<Entry>, es: seq<Entry>, x: Entry)
    requires x in StoreAll(cache, es)
    ensures x in cache || x in es
  {
    if es != [] {
      var before, e := StoreAll(cache, es[..|es| - 1]), es[|es| - 1];
      if x != e {
        SubsetOfStore(before, e, x);
        OnlyStored(cache, es[..|es| - 1], x);
      }
    }
  }

  lemma SubsetOfStore(cache: seq<Entry>, e: Entry, x: Entry)
    requires x in StoreSpec(cache, e) && x != e
    ensures x in cache
  {
    var room := if |cache| >= CACHE_MAX && cache != [] then SwapRemove(cache, 0) else cache;
    assert x in room;
  }

  lemma DistinctKeysAreNew(es: seq<Entry>)
    requires Distinct(es)
    ensures AllNewSinceStart(es)
  {
    forall k | 0 <= k < |es| ensures Absent(StoreAll([], es[..k]), es[k].key) {
      forall x | x in StoreAll([], es[..k]) ensures x.key != es[k].key {
        OnlyStored([], es[..k], x);
      }
    }
  }

  /** Lookup number `i` of host names that differ only in their port, one nanosecond apart. */
  function Lookups(n: nat): (es: seq<Entry>)
    ensures |es| == n
  {
    seq(n, i requires 0 <= i < n => Entry(Key("a", i), 0, i))
  }

  /** From the second eviction on an entry that is not the oldest goes, however many follow. */
  lemma EvictionIsNotOldestFirst(k: nat)
    requires k > CACHE_MAX
    ensures var es := Lookups(k + 1);
            AllNewSinceStart(es) && !IsOldest(Stored(es[..k]), DroppedBy(es, k)) && es[1] in Stored(es)
  {
    hide Stored, AllNewSinceStart, Window;
    var es := Lookups(k + 1);
    DistinctKeysAreNew(es);
    DropsOldestIff(es, k);
    FullCache(es, k + 1);
    assert es[..k + 1] == es;
    assert es[1] == es[1..CACHE_MAX - 1][0];
    InWindow(DroppedBy(es, k + 1), es[1..CACHE_MAX - 1], es[k], es[1]);
  }

  // ---------------------------------------------------------------- every run of the resolver

  /** A lookup that will be stored, or could still be started, is for a key that is not cached. */
  ghost predicate KeyIsNew(s: System, task: Task) {
    && (task.phase.Looking? || task.phase.Answered? || task.phase.Storing? ==> Absent(s.tables.cache, task.key))
    && (task.phase.Missed? ==> task.key in s.tables.resolving || Absent(s.tables.cache, task.key))
  }

  ghost predicate KeysAreNew(s: System) {
    forall t | t in s.tasks :: KeyIsNew(s, s.tasks[t])
  }

  lemma MoverIsNew(s: System, e: Event)
    requires CacheOk(s) && KeysAreNew(s) && Enabled(s, e) && !e.Tick?
    ensures KeyIsNew(Step(s, e), Step(s, e).tasks[e.task])
  {
    var t := e.task;
    if t in s.tasks {
      StepCache(s, e);
      StepResolving(s, e);
      hide StoreSpec, CheckSpec;
      assert KeyIsNew(s, s.tasks[t]);
      CheckKeepsCache(s.tables.cache, s.tasks[t].key, s.clock);
      if e.Advance? && s.tasks[t].phase.Missed? {
        hide Step;
      }
    }
  }

  lemma OthersStayNew(s: System, e: Event, u: nat)
    requires LocksOk(s) && OwnersOk(s) && CacheOk(s) && Enabled(s, e) && !e.Tick?
    requires u in s.tasks && u != e.task && KeyIsNew(s, s.tasks[u])
    ensures KeyIsNew(Step(s, e), s.tasks[u])
  {
    StepCache(s, e);
    StepResolving(s, e);
    var s', t, p, key := Step(s, e), e.task, s.tasks[u].phase, s.tasks[u].key;
    hide Step;
    assert p.Missed? ==> s.resolvingLock == Some(u);
    if e.Advance? && s.tasks[t].phase.HasBoth? {
      CheckKeepsCache(s.tables.cache, s.tasks[t].key, s.clock);
    } else if e.Advance? && s.tasks[t].phase.Storing? {
      StoreKeepsCache(s.tables.cache, Entry(s.tasks[t].key, s.tasks[t].phase.addr, s.clock));
      assert OwnsKey(s, t, s.tasks[t].key, s.tasks[t].phase.own);
      if p.Owns() {
        assert OwnsKey(s, u, key, p.own);
      }
    }
    hide CheckSpec, StoreSpec;
  }

  lemma StepKeepsNew(s: System, e: Event)
    requires LocksOk(s) && OwnersOk(s) && CacheOk(s) && KeysAreNew(s) && Enabled(s, e)
    ensures KeysAreNew(Step(s, e))
  {
    if !e.Tick? {
      StepMoves(s, e);
      MoverIsNew(s, e);
      hide Step, KeyIsNew;
      forall u | u in s.tasks && u != e.task ensures KeyIsNew(Step(s, e), s.tasks[u]) {
        OthersStayNew(s, e, u);
      }
    }
  }

  lemma {:induction false} RunKeepsNew(events: seq<Event>)
    ensures KeysAreNew(Run(events))
  {
    if events != [] {
      var s, e := Run(events[..|events| - 1]), events[|events| - 1];
      RunKeepsNew(events[..|events| - 1]);
      RunKeepsInv(events[..|events| - 1]);
      hide Step, LocksOk, OwnersOk, WaitersOk, CacheOk, OutcomesOk, KeysAreNew;
      if Enabled(s, e) {
        StepKeepsNew(s, e);
      }
    }
  }

  /** In every run a store finds its key absent: single flight leaves nobody else to have stored it since the miss. */
  lemma StoredKeysAreNew(events: seq<Event>, t: nat)
    requires t in Run(events).tasks && Run(events).tasks[t].phase.Storing?
    ensures Absent(Run(events).tables.cache, Run(events).tasks[t].key)
  {
    RunKeepsNew(events);
    assert KeyIsNew(Run(events), Run(events).tasks[t]);
  }

  /** The next event stores this entry. */
  ghost function StoreOf(s: System, e: Event): Option<Entry> {
    if e.Advance? && Enabled(s, e) && s.tasks[e.task].phase.Storing? then
      Some(Entry(s.tasks[e.task].key, s.tasks[e.task].phase.addr, s.clock))
    else None
  }

  /** All entries stored so far, in order. */
  ghost function Stores(events: seq<Event>): seq<Entry> {
    if events == [] then []
    else
      var before := events[..|events| - 1];
      var e := StoreOf(Run(before), events[|events| - 1]);
      Stores(before) + if e.Some? then [e.value] else []
  }

  /** The next event drops a stale entry. */
  ghost predicate DropsStale(s: System, e: Event) {
    e.Advance? && Enabled(s, e) && s.tasks[e.task].phase.HasBoth?
    && CheckSpec(s.tables.cache, s.tasks[e.task].key, s.clock).0 != s.tables.cache
  }

  ghost predicate NeverStale(events: seq<Event>) {
    events != [] ==>
      NeverStale(events[..|events| - 1]) && !DropsStale(Run(events[..|events| - 1]), events[|events| - 1])
  }

  /** What a run did to the cache. */
  ghost predicate CacheIs(s: System, es: seq<Entry>) {
    && s.tables.cache == Stored(es) && AllNewSinceStart(es) && Ordered(es)
    && forall i | 0 <= i < |es| :: es[i].at <= s.clock
  }

  lemma StoreExtends(es: seq<Entry>, e: Entry, clock: nat)
    requires AllNewSinceStart(es) && Ordered(es) && Absent(Stored(es), e.key) && e.at == clock
    requires forall i | 0 <= i < |es| :: es[i].at <= clock
    ensures AllNewSinceStart(es + [e]) && Ordered(es + [e]) && Stored(es + [e]) == StoreSpec(Stored(es), e)
  {
    hide StoreSpec;
    var more := es + [e];
    assert more[..|more| - 1] == es;
    forall k | 0 <= k < |more| ensures Absent(StoreAll([], more[..k]), more[k].key) {
      assert more[..k] == es[..k];
      assert es[..|es|] == es;
    }
  }

  lemma StepExtends(s: System, e: Event, es: seq<Entry>)
    requires CacheIs(s, es) && KeysAreNew(s) && Enabled(s, e) && !DropsStale(s, e)
    ensures var x := StoreOf(s, e); CacheIs(Step(s, e), es + if x.Some? then [x.value] else [])
  {
    hide Step, Stored, AllNewSinceStart, StoreSpec, CheckSpec, Ordered;
    StepCache(s, e);
    ClockNeverRunsBack(s, e);
    var x := StoreOf(s, e);
    if x.Some? {
      assert KeyIsNew(s, s.tasks[e.task]);
      StoreExtends(es, x.value, s.clock);
    } else {
      assert es + [] == es;
    }
  }

  lemma ClockNeverRunsBack(s: System, e: Event)
    requires Enabled(s, e)
    ensures Step(s, e).clock >= s.clock
  {
    hide CheckSpec, StoreSpec, AdmitSpec;
  }

  /** As long as no lookup met a stale entry, the cache is what its stores made of it. */
  lemma {:induction false} CacheIsItsStores(events: seq<Event>)
    requires NeverStale(events)
    ensures CacheIs(Run(events), Stores(events))
  {
    if events == [] {
      NothingStored();
    } else {
      var before, e := events[..|events| - 1], events[|events| - 1];
      CacheIsItsStores(before);
      RunKeepsNew(before);
      hide Step, CacheIs, KeysAreNew, DropsStale;
      if Enabled(Run(before), e) {
        StepExtends(Run(before), e, Stores(before));
      } else {
        assert Stores(before) + [] == Stores(before);
      }
    }
  }

  lemma NothingStored()
    ensures Stored([]) == [] && AllNewSinceStart([])
  {}

  /** The exact condition over a run: when a task is about to store into the full cache and no lookup ever met a stale
      entry, the entry that goes is an oldest one if and only if this is the first eviction of the run, or that entry is
      exactly as old as the second one ever stored. */
  lemma RunDropsOldestIff(events: seq<Event>, t: nat)
    requires NeverStale(events) && |Run(events).tables.cache| == CACHE_MAX
    requires t in Run(events).tasks && Run(events).tasks[t].phase.Storing?
    ensures var s, es, k := Run(events), Stores(events), |Stores(events)|;
            && k >= CACHE_MAX
            && (forall x :: x in s.tables.cache && x !in Step(s, Advance(t)).tables.cache <==> x == DroppedBy(es, k))
            && (IsOldest(s.tables.cache, DroppedBy(es, k)) <==> k == CACHE_MAX || DroppedBy(es, k).at == es[1].at)
  {
    hide Run, Stores, Step, NeverStale, Stored, AllNewSinceStart, StoreSpec, Ordered, IsOldest, DroppedBy, CheckSpec;
    var s, es := Run(events), Stores(events);
    CacheIsItsStores(events);
    StoredKeysAreNew(events, t);
    StepCache(s, Advance(t));
    DropsIff(es, Entry(s.tasks[t].key, s.tasks[t].phase.addr, s.clock), s.clock);
  }

  lemma DropsIff(es: seq<Entry>, e: Entry, clock: nat)
    requires AllNewSinceStart(es) && Ordered(es) && |Stored(es)| == CACHE_MAX
    requires Absent(Stored(es), e.key) && e.at == clock
    requires forall i | 0 <= i < |es| :: es[i].at <= clock
    ensures var cache, k := Stored(es), |es|;
            && k >= CACHE_MAX
            && (forall x :: x in cache && x !in StoreSpec(cache, e) <==> x == DroppedBy(es, k))
            && (IsOldest(cache, DroppedBy(es, k)) <==> k == CACHE_MAX || DroppedBy(es, k).at == es[1].at)
  {
    hide Stored, AllNewSinceStart, StoreSpec, IsOldest, DroppedBy;
    var more, k := es + [e], |es|;
    EnoughStores(es);
    assert es[..k] == es && more[..k] == es && more[..k + 1] == more;
    DropsOldestIff(es, k);
    StoreExtends(es, e, clock);
    forall x ensures x in Stored(es) && x !in StoreSpec(Stored(es), e) <==> x == DroppedBy(es, k) {
      StoreDrops(more, k, x);
      SameDrop(es, e);
    }
  }

  lemma SameDrop(es: seq<Entry>, e: Entry)
    requires |es| >= CACHE_MAX
    ensures DroppedBy(es + [e], |es|) == DroppedBy(es, |es|)
  {}

  lemma EnoughStores(es: seq<Entry>)
    requires AllNewSinceStart(es) && |Stored(es)| == CACHE_MAX
    ensures |es| >= CACHE_MAX
  {
    hide Stored, AllNewSinceStart;
    assert es[..|es|] == es;
    if |es| <= CACHE_MAX {
      Filling(es, |es|);
    }
  }

  // ---------------------------------------------------------------- every run, stale entries or not

  /** The next event stores into the full cache. */
  ghost predicate Evicts(s: System, e: Event) { StoreOf(s, e).Some? && |s.tables.cache| == CACHE_MAX }

  /** The last change of the cache was an eviction. */
  ghost predicate JustEvicted(events: seq<Event>) {
    events != [] &&
    var before, e := events[..|events| - 1], events[|events| - 1];
    Evicts(Run(before), e) || (JustEvicted(before) && Run(events).tables.cache == Run(before).tables.cache)
  }

  /** No entry between the first and the last is newer than `x`. */
  ghost predicate MiddleUpTo(cache: seq<Entry>, x: Entry)
    requires |cache| == CACHE_MAX
  {
    forall i | 1 <= i < CACHE_MAX - 1 :: cache[i].at <= x.at
  }

  /** The last entry of a full cache is its newest; after an eviction the first one is the second newest. */
  ghost predicate Lined(cache: seq<Entry>, evicted: bool) {
    && (|cache| == CACHE_MAX ==> forall i | 0 <= i < CACHE_MAX :: cache[i].at <= cache[CACHE_MAX - 1].at)
    && (evicted ==> |cache| == CACHE_MAX && MiddleUpTo(cache, cache[0]))
  }

  lemma StoreLines(cache: seq<Entry>, evicted: bool, e: Entry)
    requires Lined(cache, evicted) && |cache| <= CACHE_MAX && Absent(cache, e.key)
    requires forall x | x in cache :: x.at <= e.at
    ensures Lined(StoreSpec(cache, e), |cache| == CACHE_MAX)
  {
    hide StoreSpec;
    if |cache| == CACHE_MAX {
      FullStore(cache, e);
    } else {
      RoomyStore(cache, e);
    }
  }

  lemma CheckShrinks(cache: seq<Entry>, key: Key, now: nat)
    ensures CheckSpec(cache, key, now).0 == cache || |CheckSpec(cache, key, now).0| < |cache|
  {}

  lemma StepLines(s: System, e: Event, evicted: bool)
    requires CacheOk(s) && KeysAreNew(s) && Enabled(s, e) && Lined(s.tables.cache, evicted)
    ensures var c, c' := s.tables.cache, Step(s, e).tables.cache;
            Lined(c', Evicts(s, e) || (evicted && c' == c))
  {
    hide Step, StoreSpec, CheckSpec, Lined;
    StepCache(s, e);
    var c, x := s.tables.cache, StoreOf(s, e);
    if x.Some? {
      assert KeyIsNew(s, s.tasks[e.task]);
      StoreLines(c, evicted, x.value);
    } else if e.Advance? && s.tasks[e.task].phase.HasBoth? {
      CheckShrinks(c, s.tasks[e.task].key, s.clock);
      Shrunk(c, Step(s, e).tables.cache, evicted);
    }
  }

  lemma Shrunk(cache: seq<Entry>, less: seq<Entry>, evicted: bool)
    requires Lined(cache, evicted) && |cache| <= CACHE_MAX && (less == cache || |less| < |cache|)
    ensures Lined(less, evicted && less == cache)
  {}

  lemma {:induction false} RunLines(events: seq<Event>)
    ensures Lined(Run(events).tables.cache, JustEvicted(events))
  {
    if events != [] {
      var before, e := events[..|events| - 1], events[|events| - 1];
      RunLines(before);
      RunKeepsNew(before);
      RunKeepsInv(before);
      hide Step, LocksOk, OwnersOk, WaitersOk, CacheOk, OutcomesOk, KeysAreNew, Lined, StoreOf;
      if Enabled(Run(before), e) {
        StepLines(Run(before), e, JustEvicted(before));
      } else {
        NothingStarts(Run(before), e);
      }
    }
  }

  lemma NothingStarts(s: System, e: Event)
    requires !Enabled(s, e)
    ensures !Evicts(s, e)
  {}

  /** In every run an eviction that directly follows another one drops the second newest entry, and that is an oldest
      one if and only if all entries but the newest are equally old. */
  lemma NextEvictionDropsTheSecondNewest(events: seq<Event>, t: nat)
    requires JustEvicted(events)
    requires t in Run(events).tasks && Run(events).tasks[t].phase.Storing?
    ensures var s, c := Run(events), Run(events).tables.cache;
            && |c| == CACHE_MAX
            && (forall x :: x in c && x !in Step(s, Advance(t)).tables.cache <==> x == c[0])
            && (forall x | x in c && x != c[CACHE_MAX - 1] :: x.at <= c[0].at <= c[CACHE_MAX - 1].at)
            && (IsOldest(c, c[0]) <==> forall i | 1 <= i < CACHE_MAX - 1 :: c[i].at == c[0].at)
  {
    hide Run, JustEvicted, Step, StoreSpec, CheckSpec;
    RunLines(events);
    var s, c := Run(events), Run(events).tables.cache;
    RunKeepsInv(events);
    StoredKeysAreNew(events, t);
    StepCache(s, Advance(t));
    SecondNewestGoes(c, Entry(s.tasks[t].key, s.tasks[t].phase.addr, s.clock));
  }

  lemma SecondNewestGoes(c: seq<Entry>, e: Entry)
    requires Lined(c, true) && Distinct(c) && Absent(c, e.key)
    ensures forall x :: x in c && x !in StoreSpec(c, e) <==> x == c[0]
    ensures forall x | x in c && x != c[CACHE_MAX - 1] :: x.at <= c[0].at <= c[CACHE_MAX - 1].at
    ensures IsOldest(c, c[0]) <==> forall i | 1 <= i < CACHE_MAX - 1 :: c[i].at == c[0].at
  {
    hide StoreSpec;
    var last, middle := c[CACHE_MAX - 1], c[1..CACHE_MAX - 1];
    WindowOf(c);
    FullStore(c, e);
    forall x ensures x in c && x !in StoreSpec(c, e) <==> x == c[0] {
      WindowLoses(c[0], middle, last, e, x);
    }
  }
}
