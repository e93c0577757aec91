/** The key service client: `public_key` over a cache that other requests use between its reads.
  *
  * Time may pass before every read of the clock. Other requests may change the cache only while this one
  * waits for the refresh lock, because every write happens under it; `JwkFlight` proves that.
  */
module JwkClient {
  import opened Common
  import opened JwkCache

  /** The call answered as it must when no time passes and nobody else runs. */
  predicate Decided(l: Limits, c: CacheState, kid: string, now: nat, trips: seq<Trip>, r: Result<Jwk, JwkError>, own: bool) {
    match Decide(l, c, kid, now)
    case Reply(answer) => !own && r == answer
    case Fetch => own && trips != [] && r == Settle(l, c, kid, now, trips[|trips| - 1].outcome)
  }

  lemma DecidedHit(l: Limits, trips: seq<Trip>, kid: string, now: nat)
    requires Held(After(trips), l.ttl, kid, now).Some?
    ensures Decided(l, After(trips), kid, now, trips, Ok(Held(After(trips), l.ttl, kid, now).value), false)
    ensures Justified(l, trips, kid, Ok(Held(After(trips), l.ttl, kid, now).value), false, now, now)
    ensures MissRetried(l, trips, kid, Ok(Held(After(trips), l.ttl, kid, now).value), false, now, now)
  {
    JustifyHeld(l, trips, kid, l.ttl, false, now, now);
  }

  lemma StaysMissed(c: CacheState, age: nat, kid: string, now: nat, later: nat)
    requires Held(c, age, kid, now) == None && now <= later
    ensures Held(c, age, kid, later) == None
  {
  }

  /** An answer without a fresh key made its own trip, unless the throttle interval was still running when it asked; and
    * then it serves a key only if the last trip failed. */
  predicate MissRetried(l: Limits, trips: seq<Trip>, kid: string, r: Result<Jwk, JwkError>, own: bool, asked: nat, at: nat) {
    Held(After(trips), l.ttl, kid, at) == None ==> own || (Throttled(l, trips, asked) && (r.Ok? ==> LastFailed(trips)))
  }

  lemma AnswerRetried(l: Limits, trips: seq<Trip>, kid: string, r: Result<Jwk, JwkError>, own: bool, asked: nat, at: nat)
    requires Justified(l, trips, kid, r, own, asked, at)
    ensures MissRetried(l, trips, kid, r, own, asked, at)
  {
    if Held(After(trips), l.ttl, kid, at) == None { MissMakesTrip(l, trips, kid, r, own, asked, at); }
  }

  /** The log explains the cache, up to an attempt that was marked but not made yet. */
  ghost predicate Explains(l: Limits, upstream: Upstream, trips: seq<Trip>, c: CacheState, clock: nat) {
    && c.(lastAttempt := None) == After(trips).(lastAttempt := None)
    && Spaced(l, trips)
    && Faithful(upstream, trips)
    && LogEnd(trips) <= clock
    && (c.entry.Some? ==> c.entry.value.fetchedAt <= clock)
  }

  lemma ExplainsLater(l: Limits, upstream: Upstream, trips: seq<Trip>, c: CacheState, clock: nat, later: nat)
    requires Explains(l, upstream, trips, c, clock) && clock <= later
    ensures Explains(l, upstream, trips, c, later)
  {
  }

  lemma MayStartLater(l: Limits, trips: seq<Trip>, kid: string, now: nat, later: nat)
    requires MayStart(l, trips, kid, now) && now <= later
    ensures MayStart(l, trips, kid, later)
  {
  }

  /** Nothing to protect: neither a fresh snapshot nor an outage to serve from memory. */
  lemma LeaveToStart(l: Limits, trips: seq<Trip>, kid: string, asked: nat, checked: nat, now: nat)
    requires asked <= checked <= now && Held(After(trips), l.ttl, kid, asked) == None && !Younger(After(trips), l.ttl, now)
    requires trips != [] ==> trips[|trips| - 1].started <= trips[|trips| - 1].ended
    requires !LastFailed(trips) || trips[|trips| - 1].ended + l.missInterval <= checked || Held(After(trips), l.MaxAge(), kid, checked) == None
    ensures MayStart(l, trips, kid, now)
  {
  }

  /** A trip that was allowed keeps the log in order and explains the cache it leaves. */
  lemma OneMore(l: Limits, upstream: Upstream, trips: seq<Trip>, c: CacheState, clock: nat, trip: Trip)
    requires Explains(l, upstream, trips, c, clock) && MayStart(l, trips, trip.kid, trip.started)
    requires clock <= trip.started && trip.Honest(upstream)
    ensures Explains(l, upstream, trips + [trip], After(trips + [trip]), trip.ended)
    ensures (trips + [trip])[..|trips|] == trips
    ensures After(trips + [trip]) ==
            match trip.outcome
            case Ok(keys) => CacheState(Some(Snapshot(keys, trip.ended)), Some(trip.started), None)
            case Err(_) => CacheState(c.entry, Some(trip.started), Some(trip.ended))
  {
    SpacedMore(l, trips, trip);
    FaithfulMore(upstream, trips, trip);
  }

  class JwkService {
    const limits: Limits
    const upstream: Upstream
    var clock: nat
    var entry: Option<Snapshot>
    var lastAttempt: Option<nat>
    var lastFailure: Option<nat>
    ghost var trips: seq<Trip>

    constructor (limits: Limits, upstream: Upstream)
      ensures Valid() && trips == [] && this.limits == limits && this.upstream == upstream
    {
      this.limits := limits;
      this.upstream := upstream;
      clock, entry, lastAttempt, lastFailure, trips := 0, None, None, None, [];
    }

    ghost function Cache(): CacheState
      reads this
    {
      CacheState(entry, lastAttempt, lastFailure)
    }

    ghost predicate Consistent()
      reads this
    {
      Explains(limits, upstream, trips, Cache(), clock)
    }

    ghost predicate Valid()
      reads this
    {
      Consistent() && Cache() == After(trips)
    }

    /** The rest of the system runs for a while. */
    method Pause()
      modifies `clock
      ensures clock >= old(clock)
      ensures old(Consistent()) ==> Consistent()
    {
      var d: int := *;
      if d > 0 {
        if Consistent() { ExplainsLater(limits, upstream, trips, Cache(), clock, clock + d); }
        clock := clock + d;
      }
    }

    method LookupFresh(kid: string) returns (r: Option<Jwk>)
      requires Consistent()
      modifies `clock
      ensures Consistent() && clock >= old(clock)
      ensures r == Held(Cache(), limits.ttl, kid, clock)
    {
      Pause();
      r := None;
      if entry.Some? && clock < entry.value.fetchedAt + limits.ttl {
        r := Find(entry.value.keys, kid);
      }
    }

    method LookupStale(kid: string) returns (r: Option<Jwk>)
      requires Consistent()
      modifies `clock
      ensures Consistent() && clock >= old(clock)
      ensures r == Held(Cache(), limits.MaxAge(), kid, clock)
    {
      Pause();
      r := None;
      if entry.Some? && clock < entry.value.fetchedAt + limits.MaxAge() {
        r := Find(entry.value.keys, kid);
      }
    }

    method CacheIsFresh() returns (yes: bool)
      requires Consistent()
      modifies `clock
      ensures Consistent() && clock >= old(clock)
      ensures yes <==> Younger(Cache(), limits.ttl, clock)
    {
      Pause();
      yes := entry.Some? && clock < entry.value.fetchedAt + limits.ttl;
    }

    method HasServable() returns (yes: bool)
      requires Consistent()
      modifies `clock
      ensures Consistent() && clock >= old(clock)
      ensures yes <==> HasServableSnapshot(limits, Cache(), clock)
    {
      Pause();
      yes := entry.Some? && entry.value.keys != [] && clock < entry.value.fetchedAt + limits.MaxAge();
    }

    method RefreshRecentlyFailed() returns (yes: bool)
      requires Consistent()
      modifies `clock
      ensures Consistent() && clock >= old(clock)
      ensures yes <==> LastFailed(trips) && clock < trips[|trips| - 1].ended + limits.missInterval
    {
      Pause();
      yes := lastFailure.Some? && clock < lastFailure.value + limits.missInterval;
    }

    /** Marks an attempt unless the last one is too recent. */
    method AllowRefreshOnMiss() returns (allowed: bool)
      requires Valid()
      modifies `clock, `lastAttempt
      ensures Consistent() && clock >= old(clock)
      ensures allowed <==> Elapsed(After(trips).lastAttempt, limits.missInterval, clock)
      ensures lastAttempt == if allowed then Some(clock) else old(lastAttempt)
    {
      Pause();
      allowed := !(lastAttempt.Some? && clock < lastAttempt.value + limits.missInterval);
      if allowed {
        lastAttempt := Some(clock);
      }
    }

    /** One HTTP request: the answer of the key service at a moment of its duration. */
    method PublicKeys() returns (r: Result<KeySet, JwkError>, ghost seen: nat)
      modifies `clock
      ensures old(clock) <= seen <= clock
      ensures r == upstream.Answer(seen)
    {
      Pause();
      r := match upstream.fault(clock) case None => Ok(upstream.keys(clock)) case Some(e) => Err(e);
      seen := clock;
      Pause();
    }

    /** `fetch_and_store`: one more trip on the log, and the cache that goes with it. */
    method FetchAndStore(kid: string) returns (r: Result<KeySet, JwkError>)
      requires Consistent() && MayStart(limits, trips, kid, clock)
      modifies this
      ensures Valid() && clock >= old(clock)
      ensures |trips| == |old(trips)| + 1 && trips[..|old(trips)|] == old(trips)
      ensures var trip := trips[|trips| - 1];
              trip.kid == kid && trip.outcome == r && old(clock) <= trip.started && trip.ended == clock
    {
      ghost var called, before, found := clock, trips, Cache();
      Pause();
      lastAttempt := Some(clock);
      ghost var started := clock;
      ghost var seen;
      r, seen := PublicKeys();
      Pause();
      match r {
        case Err(_) =>
          lastFailure := Some(clock);
        case Ok(keys) =>
          entry := Some(Snapshot(keys, clock));
          lastFailure := None;
      }
      ghost var trip := Trip(kid, started, seen, clock, r);
      MayStartLater(limits, before, kid, called, started);
      OneMore(limits, upstream, before, found, called, trip);
      trips := before + [trip];
    }

    /** A trip and the answer after it: a failed trip leaves the snapshot in memory to serve. */
    method FetchAnswer(kid: string, ghost asked: nat) returns (r: Result<Jwk, JwkError>, ghost at: nat)
      requires Consistent() && MayStart(limits, trips, kid, clock) && asked <= clock
      modifies this
      ensures Valid() && old(clock) <= at <= clock
      ensures |trips| == |old(trips)| + 1 && trips[..|old(trips)|] == old(trips)
      ensures old(clock) <= trips[|trips| - 1].started
      ensures Justified(limits, trips, kid, r, true, asked, at) && MissRetried(limits, trips, kid, r, true, asked, at)
      ensures r == Settle(limits, After(trips), kid, at, trips[|trips| - 1].outcome)
    {
      var fetched := FetchAndStore(kid);
      at := clock;
      match fetched {
        case Ok(keys) =>
          r := Lookup(keys, kid);
        case Err(e) =>
          var stale := LookupStale(kid);
          at := clock;
          r := if stale.Some? then Ok(stale.value) else Err(e);
      }
      JustifySettled(limits, trips, kid, asked, at);
    }

    /** An outage: the last trip failed too recently to repeat it, and memory still has the key. */
    method AnswerOutage(kid: string) returns (r: Option<Jwk>)
      requires Consistent()
      modifies `clock
      ensures Consistent() && clock >= old(clock)
      ensures r.Some? ==> LastFailed(trips) && r == Held(Cache(), limits.MaxAge(), kid, clock)
      ensures r.None? ==> !LastFailed(trips) || trips[|trips| - 1].ended + limits.missInterval <= clock
                          || Held(Cache(), limits.MaxAge(), kid, clock) == None
      ensures clock == old(clock) && LastFailed(trips) && trips[|trips| - 1].ended + limits.missInterval <= clock ==> r.None?
    {
      r := None;
      var failed := RefreshRecentlyFailed();
      if failed {
        r := LookupStale(kid);
      }
    }

    /** Too early to refresh: serve an outage from memory, refuse a fresh miss, or have nothing to protect. */
    method AnswerThrottled(kid: string, ghost asked: nat) returns (r: Option<Result<Jwk, JwkError>>, ghost at: nat)
      requires Valid() && asked <= clock
      requires Held(Cache(), limits.ttl, kid, asked) == None
      requires Throttled(limits, trips, asked)
      modifies `clock
      ensures Valid() && asked <= at <= clock && old(clock) <= clock
      ensures r.Some? ==> limits.ttl > 0 && Justified(limits, trips, kid, r.value, false, asked, at)
      ensures r.None? ==> MayStart(limits, trips, kid, clock)
      ensures asked == clock ==>
                Decide(limits, Cache(), kid, clock) == if r.Some? then Reply(r.value) else Fetch
    {
      at := asked;
      var stale := AnswerOutage(kid);
      if stale.Some? {
        at := clock;
        JustifyHeld(limits, trips, kid, limits.MaxAge(), false, asked, at);
        return Some(Ok(stale.value)), at;
      }
      ghost var checked := clock;
      var young := CacheIsFresh();
      if young {
        JustifyThrottled(limits, trips, kid, at);
        return Some(Err(NotFound)), at;
      }
      LeaveToStart(limits, trips, kid, asked, checked, clock);
      r := None;
    }

    /** The reads under the refresh lock: an answer from memory, or leave to make a trip. */
    method AnswerFromMemory(kid: string) returns (r: Option<Result<Jwk, JwkError>>, ghost asked: nat, ghost at: nat)
      requires Valid()
      modifies `clock, `lastAttempt
      ensures Consistent() && old(clock) <= asked <= at <= clock
      ensures r.Some? ==> Valid() && limits.ttl > 0 && Justified(limits, trips, kid, r.value, false, asked, at)
      ensures r.Some? ==> MissRetried(limits, trips, kid, r.value, false, asked, at)
      ensures r.None? ==> MayStart(limits, trips, kid, clock)
      ensures clock == old(clock) ==>
                Decide(limits, After(trips), kid, clock) == if r.Some? then Reply(r.value) else Fetch
    {
      var hit := LookupFresh(kid);
      asked, at := clock, clock;
      if hit.Some? {
        JustifyHeld(limits, trips, kid, limits.ttl, false, asked, at);
        return Some(Ok(hit.value)), asked, at;
      }
      var allowed := AllowRefreshOnMiss();
      asked, at := clock, clock;
      r := None;
      if !allowed {
        r, at := AnswerThrottled(kid, at);
        if r.Some? { AnswerRetried(limits, trips, kid, r.value, false, asked, at); }
      }
    }

    /** The part of `public_key` under the refresh lock. */
    method PublicKeyLocked(kid: string) returns (r: Result<Jwk, JwkError>, ghost own: bool, ghost asked: nat, ghost at: nat)
      requires Valid()
      modifies this
      ensures Valid() && old(clock) <= asked <= at <= clock
      ensures own ==> |trips| == |old(trips)| + 1 && trips[..|old(trips)|] == old(trips)
                      && old(clock) <= trips[|trips| - 1].started
      ensures !own ==> trips == old(trips)
      ensures limits.ttl == 0 ==> own
      ensures Justified(limits, trips, kid, r, own, asked, at) && MissRetried(limits, trips, kid, r, own, asked, at)
      ensures clock == old(clock) ==>
                Decided(limits, old(Cache()), kid, clock, trips, r, own)
    {
      var answer;
      answer, asked, at := AnswerFromMemory(kid);
      own := answer.None?;
      if answer.Some? {
        r := answer.value;
      } else {
        r, at := FetchAnswer(kid, asked);
      }
    }

    /** Waiting for the refresh lock: any number of other requests run their locked parts. */
    method AwaitLock()
      requires Valid()
      modifies this
      ensures Valid() && clock >= old(clock)
      ensures |trips| >= |old(trips)| && trips[..|old(trips)|] == old(trips)
    {
      var others: int := *;
      while others > 0
        invariant Valid() && clock >= old(clock)
        invariant |trips| >= |old(trips)| && trips[..|old(trips)|] == old(trips)
      {
        var kid: string := *;
        ghost var before := trips;
        ghost var own, asked, at;
        var r;
        r, own, asked, at := PublicKeyLocked(kid);
        assert trips[..|before|] == before;
        assert trips[..|old(trips)|] == before[..|old(trips)|];
        others := others - 1;
      }
      Pause();
    }

    /** A miss: wait for the lock, then look again and make a trip if need be. */
    method PublicKeyAfterMiss(kid: string) returns (r: Result<Jwk, JwkError>, ghost own: bool, ghost asked: nat, ghost at: nat)
      requires Valid()
      modifies this
      ensures Valid() && old(clock) <= asked <= at <= clock
      ensures |trips| >= |old(trips)| + (if own then 1 else 0) && trips[..|old(trips)|] == old(trips)
      ensures own ==> old(clock) <= trips[|trips| - 1].started
      ensures limits.ttl == 0 ==> own
      ensures Justified(limits, trips, kid, r, own, asked, at) && MissRetried(limits, trips, kid, r, own, asked, at)
      ensures clock == old(clock) && |trips| == |old(trips)| + (if own then 1 else 0) ==>
                Decided(limits, old(Cache()), kid, clock, trips, r, own)
    {
      AwaitLock();
      ghost var before := trips;
      r, own, asked, at := PublicKeyLocked(kid);
      assert trips[..|old(trips)|] == before[..|old(trips)|];
      assert |before| == |old(trips)| ==> before == before[..|old(trips)|];
    }

    /** `public_key`. The answer is justified by the log at one moment of the call; with the cache off
      * every call makes a trip; a key that stays fresh is a hit, without waiting; without a fresh key the call makes a trip unless the throttle interval was running
      * during it, and then it serves a key only if the last trip failed; and a call that no time and nobody interrupts decides as `Decide` says. */
    method PublicKey(kid: string) returns (r: Result<Jwk, JwkError>, ghost own: bool, ghost asked: nat, ghost at: nat)
      requires Valid()
      modifies this
      ensures Valid() && old(clock) <= asked <= at <= clock
      ensures |trips| >= |old(trips)| + (if own then 1 else 0) && trips[..|old(trips)|] == old(trips)
      ensures Held(old(Cache()), limits.ttl, kid, clock).Some? ==> !own && trips == old(trips)
      ensures own ==> old(clock) <= trips[|trips| - 1].started
      ensures limits.ttl == 0 ==> own
      ensures Justified(limits, trips, kid, r, own, asked, at) && MissRetried(limits, trips, kid, r, own, asked, at)
      ensures clock == old(clock) && |trips| == |old(trips)| + (if own then 1 else 0) ==>
                Decided(limits, old(Cache()), kid, clock, trips, r, own)
    {
      var hit := LookupFresh(kid);
      if hit.Some? {
        DecidedHit(limits, trips, kid, clock);
        assert trips[..|trips|] == trips;
        return Ok(hit.value), false, clock, clock;
      }
      ghost var missed, found := clock, Cache();
      r, own, asked, at := PublicKeyAfterMiss(kid);
      StaysMissed(found, limits.ttl, kid, missed, clock);
    }
  }
}
