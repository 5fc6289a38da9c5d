/** server/src/udp.rs: the fields of `UdpEndpointPool` and what one call of `get_or_create` does to them.

    Every method is one lock section or one cache access; `SectionsMatch` ties them to the steps of the machine in
    `Endpoints`, where calls interleave. A handle is an index into `generations`; firing it bumps its generation. */
module EndpointPool {
  import opened Common
  import opened Endpoints

  datatype Pool = Pool(cache: map<nat, nat>, creating: set<nat>, notifyMap: map<nat, nat>, generations: seq<nat>)

  function Shared(s: System): Pool { Pool(s.cache, s.creating, s.notifyMap, s.generations) }

  function Lookup(p: Pool, addr: nat): Option<nat> { if addr in p.cache then Some(p.cache[addr]) else None }

  /** Only a successful claim keeps the handle that was allocated for it. */
  function ClaimSpec(p: Pool, addr: nat): (Pool, Option<nat>) {
    if addr in p.creating then (p, None)
    else (p.(creating := p.creating + {addr}, generations := p.generations + [0]), Some(|p.generations|))
  }

  function JoinSpec(p: Pool, addr: nat): (Pool, nat) {
    if addr in p.notifyMap then (p, p.notifyMap[addr])
    else (p.(notifyMap := p.notifyMap[addr := |p.generations|], generations := p.generations + [0]), |p.generations|)
  }

  function FireSpec(p: Pool, n: nat): Pool
    requires n < |p.generations|
  {
    p.(generations := p.generations[n := p.generations[n] + 1])
  }

  class UdpEndpointPool {
    var cache: map<nat, nat>
    var creating: set<nat>
    var notifyMap: map<nat, nat>
    var generations: seq<nat>

    function Value(): Pool
      reads this
    {
      Pool(cache, creating, notifyMap, generations)
    }

    constructor ()
      ensures Value() == Shared(INIT)
    {
      cache, creating, notifyMap, generations := map[], {}, map[], [];
    }

    method Get(addr: nat) returns (endpoint: Option<nat>)
      ensures endpoint == Lookup(Value(), addr)
    {
      endpoint := if addr in cache then Some(cache[addr]) else None;
    }

    /** `creating.insert`, with the handle made just before it. */
    method Claim(addr: nat) returns (own: Option<nat>)
      modifies this
      ensures (Value(), own) == ClaimSpec(old(Value()), addr)
    {
      if addr in creating {
        return None;
      }
      creating := creating + {addr};
      own := Some(|generations|);
      generations := generations + [0];
    }

    method Announce(addr: nat, own: nat)
      modifies this`notifyMap
      ensures notifyMap == old(notifyMap)[addr := own]
    {
      notifyMap := notifyMap[addr := own];
    }

    method Insert(addr: nat, endpoint: nat)
      modifies this`cache
      ensures cache == old(cache)[addr := endpoint]
    {
      cache := cache[addr := endpoint];
    }

    /** `CreationGuard::drop`: three sections, in this order. */
    method Release(addr: nat)
      modifies this`creating
      ensures creating == old(creating) - {addr}
    {
      creating := creating - {addr};
    }

    method Unmap(addr: nat)
      modifies this`notifyMap
      ensures notifyMap == old(notifyMap) - {addr}
    {
      notifyMap := notifyMap - {addr};
    }

    method Fire(own: nat)
      requires own < |generations|
      modifies this`generations
      ensures Value() == FireSpec(old(Value()), own)
    {
      generations := generations[own := generations[own] + 1];
    }

    method DropGuard(addr: nat, own: nat)
      requires own < |generations|
      modifies this
      ensures Value() == FireSpec(old(Value()).(creating := old(creating) - {addr},
          notifyMap := old(notifyMap) - {addr}), own)
    {
      Release(addr);
      Unmap(addr);
      Fire(own);
    }

    /** `entry(addr).or_insert_with(...)`: the creator's handle, or a fresh one if the creator has none mapped. */
    method Join(addr: nat) returns (n: nat)
      modifies this
      ensures (Value(), n) == JoinSpec(old(Value()), addr)
    {
      if addr in notifyMap {
        return notifyMap[addr];
      }
      n := |generations|;
      notifyMap := notifyMap[addr := n];
      generations := generations + [0];
    }

    /** `remove`, and an eviction by the cache itself. */
    method Remove(addr: nat)
      modifies this`cache
      ensures cache == old(cache) - {addr}
    {
      cache := cache - {addr};
    }

    /** `get_or_create` without interference, up to the point where it would have to wait: `None` means it joined the
        running creation of another task. `bound` is the result of opening the socket. */
    method GetOrCreate(addr: nat, bound: Option<nat>) returns (r: Option<Outcome>)
      modifies this
      ensures r.None? <==> old(addr !in cache && addr in creating)
      ensures r.None? ==> Value() == JoinSpec(old(Value()), addr).0
      ensures old(addr in cache) ==> r == Some(Existing(old(cache)[addr])) && Value() == old(Value())
      ensures old(addr !in cache && addr !in creating) ==>
                && r == Some(if bound.Some? then New(bound.value) else Failed)
                && cache == (if bound.Some? then old(cache)[addr := bound.value] else old(cache))
                && creating == old(creating)
                && notifyMap == old(notifyMap) - {addr}
                && generations == old(generations) + [1]
    {
      var hit := Get(addr);
      if hit.Some? {
        return Some(Existing(hit.value));
      }
      var own := Claim(addr);
      if own.None? {
        var n := Join(addr);
        return None;
      }
      Announce(addr, own.value);
      hit := Get(addr);
      if hit.Some? {
        assert false;
      }
      if bound.Some? {
        Insert(addr, bound.value);
        r := Some(New(bound.value));
      } else {
        r := Some(Failed);
      }
      DropGuard(addr, own.value);
      assert creating == old(creating);
      assert notifyMap == old(notifyMap) - {addr};
    }
  }

  /** Each step of the machine does to the shared fields what its section above does: steps of a task, the two ways a
      creation ends, and the removal of an endpoint. */
  lemma SectionsMatch(s: System, e: Event)
    requires Enabled(s, e)
    ensures var p, q := Shared(s), Shared(Step(s, e));
            match e
            case Evict(addr) => q == p.(cache := p.cache - {addr})
            case Advance(t) =>
              (var addr := s.tasks[t].addr;
               match s.tasks[t].phase
               case Arbitrating => q == ClaimSpec(p, addr).0
               case Announcing(n) => q == p.(notifyMap := p.notifyMap[addr := n])
               case Inserting(_, x) => q == p.(cache := p.cache[addr := x])
               case Releasing(_, _) => q == p.(creating := p.creating - {addr})
               case Unmapping(_, _) => q == p.(notifyMap := p.notifyMap - {addr})
               case Firing(n, _) => n < |p.generations| && q == FireSpec(p, n)
               case Joining => q == JoinSpec(p, addr).0
               case _ => q == p)
            case _ => q == p
  {
    if e.Evict? && e.addr !in s.cache {
      assert s.cache - {e.addr} == s.cache;
    }
  }
}
