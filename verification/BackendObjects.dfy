/** The two backends as the objects the service holds. */
module BackendObjects {
  import opened Wrappers
  import opened Packed
  import opened Overlay
  import opened Membership
  import opened Indicators
  import opened Backends
  import PC = PayloadCaching
  import SF = SingleFlight

  class LiveBackend {
    const cache: PC.PayloadCache<Payload>

    constructor (cache: PC.PayloadCache<Payload>)
      ensures this.cache == cache
    {
      this.cache := cache;
    }

    /** lookup, run with no other lookup in between. The clock is read when the cache is asked and when it is filled. */
    method Lookup(u: Upstream, v: Normalized, asked: real, answered: real) returns (r: Result<LookupResult, SF.Error>)
      requires cache.Valid()
      modifies cache
      ensures cache.Valid()
      ensures (cache.State(), r) == LiveLookup(old(cache.State()), u, v, asked, answered)
    {
      if !v.Lookupable() { return Ok(LookupResult(MISS, Skip)); }
      var key := u.Key(v);
      var cached := cache.Get(asked, key);
      if cached.Some? { return Ok(LookupResult(cached.value, PayloadCacheTier)); }
      var fetched := Fetch(u, v);
      match fetched {
        case Raised(e) =>
          r := if e.BreakerOpen? || e.OpenCti? then Ok(LookupResult(DEGRADED, DegradedTier)) else Err(e);
        case Value(p) =>
          cache.Set(answered, key, p);
          r := Ok(LookupResult(p, OpenCtiTier));
      }
    }
  }

  class SplitBackend {
    const live: LiveBackend
    var membership: MembershipSet
    var ready: bool
    var stale: bool

    ghost predicate Valid()
      reads this, membership, membership.shm, live.cache
    {
      membership.Valid() && live.cache.Valid()
    }

    constructor (membership: MembershipSet, live: LiveBackend)
      ensures this.membership == membership && this.live == live && !ready && !stale
    {
      this.membership, this.live := membership, live;
      ready, stale := false, false;
    }

    method MarkReady(ready: bool)
      modifies this`ready
      ensures this.ready == ready
    {
      this.ready := ready;
    }

    /** Staleness also shortens the life of what the cache takes from now on. */
    method MarkStale(stale: bool)
      requires Valid()
      modifies this`stale, live.cache`degraded
      ensures Valid() && this.stale == stale
      ensures live.cache.State() == old(live.cache.State()).Do(PC.Op.SetDegraded(stale))
    {
      this.stale := stale;
      live.cache.SetDegraded(stale);
    }

    /** Judged by activity, heartbeats included. */
    method StreamHealth(connected: bool, activityLag: real, staleAfter: int)
      requires Valid()
      modifies this`stale, live.cache`degraded
      ensures Valid() && (stale <==> !connected || activityLag > staleAfter as real)
      ensures live.cache.State() == old(live.cache.State()).Do(PC.Op.SetDegraded(stale))
    {
      MarkStale(!connected || activityLag > staleAfter as real);
    }

    /**
     The new set takes over the old one's pending updates before it serves; the old one is let go of,
     not unlinked.
     */
    method SwapMembership(m: MembershipSet, ready: bool) returns (unlinked: bool)
      requires Valid() && m.Valid()
      modifies this`membership, this`ready, m`added, m`tombstones, membership`shm, membership`packed
      ensures Valid() && membership == m && this.ready == ready && stale == old(stale)
      ensures m.Model() == if old(membership) == m then old(m.Model())
                           else old(m.Model()).Adopting(old(membership.Model()))
      ensures !unlinked && (old(membership) != m ==> old(membership).shm == null)
    {
      var previous := membership;
      if previous != m { m.AdoptOverlay(previous); }
      membership := m;
      this.ready := ready;
      unlinked := false;
      if previous != m { unlinked := previous.Close(Some(false)); }
    }

    method Lookup(u: Upstream, v: Normalized, asked: real, answered: real) returns (r: Result<LookupResult, SF.Error>)
      requires Valid()
      modifies live.cache
      ensures Valid()
      ensures (live.cache.State(), r)
              == SplitLookup(membership.Model(), membership.hash, ready, stale,
                             old(live.cache.State()), u, v, asked, answered)
    {
      if !v.Lookupable() { return Ok(LookupResult(MISS, Skip)); }
      if !ready || stale {
        r := live.Lookup(u, v, asked, answered);
        return r;
      }
      var known := membership.Contains(v.value);
      if !known {
        var host := u.FallbackHost(v);
        if host != "" { known := membership.Contains(host); }
      }
      if known {
        r := live.Lookup(u, v, asked, answered);
      } else {
        r := Ok(LookupResult(MISS, MembershipTier));
      }
    }
  }
}
