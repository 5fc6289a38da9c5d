/** server/src/server.rs: the two tables of `resolve_udp_target`.

    `dns_cache` is an `IndexMap`, modelled as the sequence of its entries in index order. */
module Dns {
  import opened Common

  /** UDP_DNS_CACHE_TTL. */
  const TTL: nat := 300 * SECOND
  /** MAX_UDP_DNS_CACHE. */
  const CACHE_MAX: nat := 256

  datatype Key = Key(host: string, port: nat)

  datatype Entry = Entry(key: Key, addr: nat, at: nat)

  ghost predicate Distinct(cache: seq<Entry>) {
    forall i, j | 0 <= i < j < |cache| :: cache[i].key != cache[j].key
  }

  /** `get_index_of`; the length when the key is absent. */
  function IndexOf(cache: seq<Entry>, key: Key): (i: nat)
    ensures i <= |cache|
    ensures i < |cache| ==> cache[i].key == key
    ensures forall j | 0 <= j < i :: cache[j].key != key
  {
    if cache == [] then 0 else if cache[0].key == key then 0 else 1 + IndexOf(cache[1..], key)
  }

  /** `swap_remove`: the last entry takes the place of the removed one. */
  function SwapRemove(cache: seq<Entry>, i: nat): seq<Entry>
    requires i < |cache|
  {
    cache[i := cache[|cache| - 1]][..|cache| - 1]
  }

  /** `insert`: an existing key keeps its index. */
  function InsertEntry(cache: seq<Entry>, e: Entry): seq<Entry> {
    var i := IndexOf(cache, e.key);
    if i < |cache| then cache[i := e] else cache + [e]
  }

  /** The cache part of the first critical section: a hit younger than the TTL, or the cache without the stale entry. */
  function CheckSpec(cache: seq<Entry>, key: Key, now: nat): (seq<Entry>, Option<Entry>) {
    var i := IndexOf(cache, key);
    if i == |cache| then (cache, None)
    else if Age(now, cache[i].at) < TTL then (cache, Some(cache[i]))
    else (SwapRemove(cache, i), None)
  }

  /** The second critical section: make room, then insert. */
  function StoreSpec(cache: seq<Entry>, e: Entry): seq<Entry> {
    InsertEntry(if |cache| >= CACHE_MAX && cache != [] then SwapRemove(cache, 0) else cache, e)
  }

  datatype Admission = Hit(addr: nat) | Wait(notify: nat, generation: nat) | Own(notify: nat)

  datatype Tables = Tables(cache: seq<Entry>, resolving: map<Key, nat>, generations: seq<nat>)

  /** Join the lookup of `key`, or own a new one. */
  function AdmitSpec(t: Tables, key: Key): (Tables, Admission)
    requires key in t.resolving ==> t.resolving[key] < |t.generations|
  {
    if key in t.resolving then (t, Wait(t.resolving[key], t.generations[t.resolving[key]]))
    else
      var n := |t.generations|;
      (t.(resolving := t.resolving[key := n], generations := t.generations + [0]), Own(n))
  }

  ghost predicate TablesOk(t: Tables) {
    && Distinct(t.cache) && |t.cache| <= CACHE_MAX
    && forall k | k in t.resolving :: t.resolving[k] < |t.generations|
  }

  class Resolver {
    var cache: seq<Entry>
    var resolving: map<Key, nat>
    var generations: seq<nat>

    function View(): Tables
      reads this
    {
      Tables(cache, resolving, generations)
    }

    constructor ()
      ensures View() == Tables([], map[], []) && TablesOk(View())
    {
      cache, resolving, generations := [], map[], [];
    }

    /** `IndexMap::get_index_of` as a scan. */
    method Find(key: Key) returns (i: nat)
      ensures i == IndexOf(cache, key)
    {
      i := 0;
      while i < |cache| && cache[i].key != key
        invariant i <= |cache|
        invariant forall j | 0 <= j < i :: cache[j].key != key
      {
        i := i + 1;
      }
    }

    /** Both locks are held: consult the cache, then join or own the lookup. */
    method Enter(key: Key, now: nat) returns (a: Admission)
      requires TablesOk(View())
      modifies this
      ensures TablesOk(View())
      ensures var (checked, hit) := CheckSpec(old(cache), key, now);
              if hit.Some? then View() == old(View()) && a == Hit(hit.value.addr)
              else (View(), a) == AdmitSpec(old(View()).(cache := checked), key)
    {
      CheckKeepsCache(cache, key, now);
      var i := Find(key);
      if i < |cache| {
        if Age(now, cache[i].at) < TTL {
          return Hit(cache[i].addr);
        }
        cache := SwapRemove(cache, i);
      }
      if key in resolving {
        a := Wait(resolving[key], generations[resolving[key]]);
      } else {
        var n := |generations|;
        generations := generations + [0];
        resolving := resolving[key := n];
        a := Own(n);
      }
    }

    method Store(e: Entry)
      requires TablesOk(View())
      modifies this`cache
      ensures TablesOk(View()) && cache == StoreSpec(old(cache), e)
    {
      StoreKeepsCache(cache, e);
      if |cache| >= CACHE_MAX && |cache| > 0 {
        cache := SwapRemove(cache, 0);
      }
      var i := Find(e.key);
      if i < |cache| {
        cache := cache[i := e];
      } else {
        cache := cache + [e];
      }
    }

    /** The guard's drop: release the key, then wake the waiters. */
    method Release(key: Key, notify: nat)
      requires TablesOk(View()) && notify < |generations|
      modifies this`resolving, this`generations
      ensures TablesOk(View())
      ensures resolving == old(resolving) - {key}
          && generations == old(generations)[notify := old(generations)[notify] + 1]
    {
      resolving := resolving - {key};
      generations := generations[notify := generations[notify] + 1];
    }
  }

  // ---------------------------------------------------------------- the cache

  /** `swap_remove` loses exactly entry `i`. */
  lemma SwapRemoveLosesOne(cache: seq<Entry>, i: nat)
    requires i < |cache|
    ensures multiset(SwapRemove(cache, i)) == multiset(cache) - multiset{cache[i]}
    ensures Distinct(cache) ==> Distinct(SwapRemove(cache, i))
    ensures forall e | e in SwapRemove(cache, i) :: e in cache
    ensures Distinct(cache) ==> forall e | e in SwapRemove(cache, i) :: e.key != cache[i].key
  {
    SwapRemoveMultiset(cache, i);
    var r, last := SwapRemove(cache, i), |cache| - 1;
    assert forall j | 0 <= j < last :: r[j] == if j == i then cache[last] else cache[j];
    hide SwapRemove;
  }

  lemma SwapRemoveMultiset(cache: seq<Entry>, i: nat)
    requires i < |cache|
    ensures multiset(SwapRemove(cache, i)) == multiset(cache) - multiset{cache[i]}
  {
    var last := |cache| - 1;
    assert cache == cache[..last] + [cache[last]];
    if i < last {
      var a, b := cache[..i], cache[i + 1..last];
      assert cache[..last] == a + [cache[i]] + b;
      assert SwapRemove(cache, i) == a + [cache[last]] + b;
    } else {
      assert SwapRemove(cache, i) == cache[..last];
    }
  }

  lemma CheckKeepsCache(cache: seq<Entry>, key: Key, now: nat)
    requires Distinct(cache) && |cache| <= CACHE_MAX
    ensures var (after, hit) := CheckSpec(cache, key, now);
            && Distinct(after) && |after| <= CACHE_MAX
            && (forall e | e in after :: e in cache)
            && (hit.Some? ==> hit.value in cache && hit.value.key == key && Age(now, hit.value.at) < TTL)
            && (hit.None? ==> forall e | e in after :: e.key != key)
  {}

  lemma InsertKeepsCache(cache: seq<Entry>, e: Entry)
    requires Distinct(cache)
    ensures Distinct(InsertEntry(cache, e))
    ensures forall x | x in InsertEntry(cache, e) :: x == e || x in cache
  {}

  lemma StoreKeepsCache(cache: seq<Entry>, e: Entry)
    requires Distinct(cache) && |cache| <= CACHE_MAX
    ensures Distinct(StoreSpec(cache, e)) && |StoreSpec(cache, e)| <= CACHE_MAX
    ensures e in StoreSpec(cache, e)
    ensures forall x | x in StoreSpec(cache, e) :: x == e || x in cache
    ensures forall x | x in cache ::
              x.key == e.key || x in StoreSpec(cache, e) || (|cache| == CACHE_MAX && x == cache[0])
  {
    var room := if |cache| >= CACHE_MAX && cache != [] then SwapRemove(cache, 0) else cache;
    if |cache| >= CACHE_MAX {
      SwapRemoveLosesOne(cache, 0);
      forall x | x in cache && x != cache[0] ensures x in room {
        assert multiset(cache)[x] > 0 && multiset(room)[x] > 0;
      }
    }
    InsertKeepsCache(room, e);
    InsertKeepsOthers(room, e);
  }

  lemma InsertKeepsOthers(cache: seq<Entry>, e: Entry)
    ensures e in InsertEntry(cache, e)
    ensures forall x | x in cache :: x.key == e.key || x in InsertEntry(cache, e)
  {
    var i, r := IndexOf(cache, e.key), InsertEntry(cache, e);
    assert if i < |cache| then r[i] == e else r[|cache|] == e;
    forall j | 0 <= j < |cache| && cache[j].key != e.key ensures cache[j] in r {
      assert r[j] == cache[j];
    }
  }

  predicate Absent(cache: seq<Entry>, key: Key) { forall x | x in cache :: x.key != key }

  /** A store of a new key into a full cache: the first entry goes, the last one takes its place, the new one comes
      last. */
  lemma FullStore(cache: seq<Entry>, e: Entry)
    requires |cache| == CACHE_MAX && Absent(cache, e.key)
    ensures StoreSpec(cache, e) == [cache[CACHE_MAX - 1]] + cache[1..CACHE_MAX - 1] + [e]
  {
    var room := SwapRemove(cache, 0);
    assert room == [cache[CACHE_MAX - 1]] + cache[1..CACHE_MAX - 1];
    assert forall x | x in room :: x in cache;
    assert IndexOf(room, e.key) == |room|;
  }

  /** A store of a new key while there is room. */
  lemma RoomyStore(cache: seq<Entry>, e: Entry)
    requires |cache| < CACHE_MAX && Absent(cache, e.key)
    ensures StoreSpec(cache, e) == cache + [e]
  {
    assert IndexOf(cache, e.key) == |cache|;
  }
}
