/** The JWKS cache as values: what each read answers, and the log of trips to the key service.
  *
  * A trip is one call of the key service made on behalf of a lookup. The whole cache state is a
  * function of the log (`After`), so the properties of runs are stated on the log.
  */
module JwkCache {
  import opened Common

  datatype Jwk = Jwk(kid: string, material: string)

  type KeySet = seq<Jwk>

  datatype JwkError = BadConnection | BadResponse | NotFound

  datatype Snapshot = Snapshot(keys: KeySet, fetchedAt: nat)

  datatype CacheState = CacheState(entry: Option<Snapshot>, lastAttempt: Option<nat>, lastFailure: Option<nat>)

  const COLD := CacheState(None, None, None)

  /** The longest `Duration`: 2^64 seconds less one nanosecond, in whole milliseconds. */
  const DURATION_MAX: nat := 0x1_0000_0000_0000_0000 * MILLIS - 1

  type Duration = d: nat | d <= DURATION_MAX

  datatype Limits = Limits(ttl: Duration, missInterval: Duration, staleGrace: Duration) {
    /** `servable_max_age`: TTL plus grace, saturating; nothing is servable when the cache is off. */
    function MaxAge(): (age: Duration)
      ensures ttl == 0 ==> age == 0
      ensures ttl > 0 ==> ttl <= age <= ttl + staleGrace && (age == ttl + staleGrace || age == DURATION_MAX)
    {
      if ttl == 0 then 0
      else if ttl + staleGrace <= DURATION_MAX then ttl + staleGrace
      else DURATION_MAX
    }
  }

  /** The first key with this `kid`, which is also the direct lookup in a response of the key service. */
  function Find(keys: KeySet, kid: string): (found: Option<Jwk>)
    ensures found.None? <==> forall k :: k in keys ==> k.kid != kid
    ensures found.Some? ==> found.value in keys && found.value.kid == kid
  {
    if keys == [] then None
    else if keys[0].kid == kid then Some(keys[0])
    else Find(keys[1..], kid)
  }

  /** Of several keys with one `kid` the first is found. */
  lemma {:induction false} FindFirst(keys: KeySet, kid: string, i: int)
    requires 0 <= i < |keys| && keys[i].kid == kid && forall j :: 0 <= j < i ==> keys[j].kid != kid
    ensures Find(keys, kid) == Some(keys[i])
  {
    if i > 0 {
      assert keys[0].kid != kid;
      FindFirst(keys[1..], kid, i - 1);
    }
  }

  function Lookup(keys: KeySet, kid: string): Result<Jwk, JwkError> {
    match Find(keys, kid)
    case Some(k) => Ok(k)
    case None => Err(NotFound)
  }

  predicate Younger(c: CacheState, age: nat, now: nat) {
    c.entry.Some? && now < c.entry.value.fetchedAt + age
  }

  /** The key a snapshot younger than `age` holds for `kid`. */
  function Held(c: CacheState, age: nat, kid: string, now: nat): Option<Jwk> {
    if Younger(c, age, now) then Find(c.entry.value.keys, kid) else None
  }

  predicate Elapsed(since: Option<nat>, interval: nat, now: nat) {
    since.Some? ==> since.value + interval <= now
  }

  // ---- The log of trips ----

  /** How a request to the key service can fail. */
  type Outage = e: Option<JwkError> | e != Some(NotFound) witness None

  /** The key service: the keys it holds at each moment, and whether a request fails then. */
  datatype Upstream = Upstream(keys: nat -> KeySet, fault: nat -> Outage) {
    function Answer(t: nat): Result<KeySet, JwkError> {
      match fault(t)
      case None => Ok(keys(t))
      case Some(e) => Err(e)
    }
  }

  /** A trip for `kid`: the key service read its keys at `seen`; `ended` is when the answer was recorded. */
  datatype Trip = Trip(kid: string, started: nat, seen: nat, ended: nat, outcome: Result<KeySet, JwkError>) {
    predicate Honest(upstream: Upstream) {
      started <= seen <= ended && outcome == upstream.Answer(seen)
    }
  }

  /** What the cache holds once these trips are over. */
  function After(trips: seq<Trip>): CacheState {
    if trips == [] then COLD
    else
      var last := trips[|trips| - 1];
      match last.outcome
      case Ok(keys) => CacheState(Some(Snapshot(keys, last.ended)), Some(last.started), None)
      case Err(_) => CacheState(After(trips[..|trips| - 1]).entry, Some(last.started), Some(last.ended))
  }

  predicate LastFailed(trips: seq<Trip>) {
    trips != [] && trips[|trips| - 1].outcome.Err?
  }

  /** The trip whose answer is the snapshot in memory. */
  predicate Latest(trips: seq<Trip>, i: int) {
    0 <= i < |trips| && trips[i].outcome.Ok? && forall j :: i < j < |trips| ==> trips[j].outcome.Err?
  }

  /** The throttle interval of the last trip was running at that moment. */
  predicate Throttled(l: Limits, trips: seq<Trip>, asked: nat) {
    trips != [] && asked < trips[|trips| - 1].started + l.missInterval
  }

  /** A lookup of `kid` may start a trip at `now`: there is no fresh key, and the throttle interval is over, or the cache
    * is not fresh and does not hold `kid` for an outage. */
  predicate MayStart(l: Limits, trips: seq<Trip>, kid: string, now: nat) {
    && Held(After(trips), l.ttl, kid, now) == None
    && (|| !Throttled(l, trips, now)
        || (!Younger(After(trips), l.ttl, now)
            && !(LastFailed(trips) && Held(After(trips), l.MaxAge(), kid, now).Some?)))
  }

  /** The trip bound, over a whole run. */
  predicate Spaced(l: Limits, trips: seq<Trip>) {
    forall i {:trigger trips[..i]} :: 0 <= i < |trips| ==> MayStart(l, trips[..i], trips[i].kid, trips[i].started)
  }

  /** Trips follow one another, and each success is what the key service held at one of its moments. */
  ghost predicate Faithful(upstream: Upstream, trips: seq<Trip>) {
    && (forall i :: 0 <= i < |trips| ==> trips[i].Honest(upstream))
    && (forall i {:trigger trips[..i]} :: 0 <= i < |trips| ==> LogEnd(trips[..i]) <= trips[i].started)
  }

  function LogEnd(trips: seq<Trip>): nat {
    if trips == [] then 0 else trips[|trips| - 1].ended
  }

  /** The snapshot in memory is the answer of the latest successful trip. */
  lemma {:induction false} AfterLatest(trips: seq<Trip>) returns (i: int)
    ensures After(trips).entry.Some? <==> Latest(trips, i)
    ensures After(trips).entry.Some? ==>
              After(trips).entry.value == Snapshot(trips[i].outcome.value, trips[i].ended)
    ensures After(trips).entry.None? ==> forall j :: 0 <= j < |trips| ==> trips[j].outcome.Err?
  {
    if trips == [] {
      i := -1;
    } else if trips[|trips| - 1].outcome.Ok? {
      i := |trips| - 1;
    } else {
      i := AfterLatest(trips[..|trips| - 1]);
    }
  }

  /** A trip that was allowed to start keeps the bound. */
  lemma SpacedMore(l: Limits, trips: seq<Trip>, trip: Trip)
    requires Spaced(l, trips) && MayStart(l, trips, trip.kid, trip.started)
    ensures Spaced(l, trips + [trip]) && (trips + [trip])[..|trips|] == trips
  {
    var longer := trips + [trip];
    forall i | 0 <= i < |longer|
      ensures MayStart(l, longer[..i], longer[i].kid, longer[i].started)
    {
      if i < |trips| {
        assert longer[..i] == trips[..i] && longer[i] == trips[i];
      } else {
        assert longer[..i] == trips;
      }
    }
  }

  /** An honest trip that follows the others keeps the history in order. */
  lemma FaithfulMore(upstream: Upstream, trips: seq<Trip>, trip: Trip)
    requires Faithful(upstream, trips) && LogEnd(trips) <= trip.started && trip.Honest(upstream)
    ensures Faithful(upstream, trips + [trip])
  {
    var longer := trips + [trip];
    forall i | 0 <= i < |longer|
      ensures LogEnd(longer[..i]) <= longer[i].started && longer[i].Honest(upstream)
    {
      if i < |trips| {
        assert longer[..i] == trips[..i] && longer[i] == trips[i];
      } else {
        assert longer[..i] == trips;
      }
    }
  }

  // ---- What an answer rests on ----

  /** Trip `i` justifies serving `k`: it is fresh, or this very call made it, or the last trip failed, it is within the
    * grace, and that trip was made by this call or too recent to repeat when this call asked. */
  predicate Serves(l: Limits, trips: seq<Trip>, kid: string, k: Jwk, own: bool, asked: nat, at: nat, i: int) {
    && Latest(trips, i)
    && Find(trips[i].outcome.value, kid) == Some(k)
    && (at < trips[i].ended + l.ttl
        || (own && i == |trips| - 1 && at == trips[i].ended)
        || (LastFailed(trips) && at < trips[i].ended + l.MaxAge() && (own || Throttled(l, trips, asked))))
  }

  /** Trip `i` justifies refusing `kid`: it lacks the key, and this very call made it, or it is fresh and
    * the throttle interval was running when this call asked. */
  predicate Refuses(l: Limits, trips: seq<Trip>, kid: string, own: bool, asked: nat, at: nat, i: int) {
    && Latest(trips, i)
    && Find(trips[i].outcome.value, kid) == None
    && ((own && i == |trips| - 1 && at == trips[i].ended)
        || (!own && at < trips[i].ended + l.ttl && at == asked && Throttled(l, trips, asked)))
  }

  /** Why `public_key` gave `r`, at the moment `at` of the read that decided; `own` says that the last
    * trip of the log was made by this very call, `asked` is when it asked for leave to make one. */
  ghost predicate Justified(l: Limits, trips: seq<Trip>, kid: string, r: Result<Jwk, JwkError>, own: bool, asked: nat, at: nat) {
    && asked <= at
    && (own ==> trips != [] && trips[|trips| - 1].kid == kid)
    && (r.Ok? ==> exists i :: Serves(l, trips, kid, r.value, own, asked, at, i))
    && (r == Err(NotFound) ==> exists i :: Refuses(l, trips, kid, own, asked, at, i))
    && (r.Err? && r.error != NotFound ==>
          own && trips[|trips| - 1].outcome.Err? && trips[|trips| - 1].outcome.error == r.error
          && Held(After(trips), l.MaxAge(), kid, at) == None)
  }

  /** An answer read from memory is justified. */
  lemma JustifyHeld(l: Limits, trips: seq<Trip>, kid: string, age: nat, own: bool, asked: nat, at: nat)
    requires asked <= at && (own ==> trips != [] && trips[|trips| - 1].kid == kid)
    requires age == l.ttl || (age == l.MaxAge() && LastFailed(trips) && (own || Throttled(l, trips, asked)))
    requires Held(After(trips), age, kid, at).Some?
    ensures Justified(l, trips, kid, Ok(Held(After(trips), age, kid, at).value), own, asked, at)
  {
    var i := AfterLatest(trips);
    assert Serves(l, trips, kid, Held(After(trips), age, kid, at).value, own, asked, at, i);
  }

  /** A throttled refusal is justified: the fresh snapshot does not hold `kid`. */
  lemma JustifyThrottled(l: Limits, trips: seq<Trip>, kid: string, at: nat)
    requires Younger(After(trips), l.ttl, at) && Held(After(trips), l.ttl, kid, at) == None
    requires Throttled(l, trips, at)
    ensures Justified(l, trips, kid, Err(NotFound), false, at, at)
  {
    var i := AfterLatest(trips);
    assert Refuses(l, trips, kid, false, at, at, i);
  }

  /** The answer after a trip of one's own is justified. */
  lemma JustifySettled(l: Limits, trips: seq<Trip>, kid: string, asked: nat, at: nat)
    requires trips != [] && trips[|trips| - 1].kid == kid && trips[|trips| - 1].ended <= at && asked <= at
    requires trips[|trips| - 1].outcome != Err(NotFound)
    requires trips[|trips| - 1].outcome.Ok? ==> at == trips[|trips| - 1].ended
    ensures Justified(l, trips, kid, Settle(l, After(trips), kid, at, trips[|trips| - 1].outcome), true, asked, at)
  {
    var last := |trips| - 1;
    if trips[last].outcome.Ok? {
      var found := Find(trips[last].outcome.value, kid);
      assert found.Some? ==> Serves(l, trips, kid, found.value, true, asked, at, last);
      assert found.None? ==> Refuses(l, trips, kid, true, asked, at, last);
    } else if Held(After(trips), l.MaxAge(), kid, at).Some? {
      JustifyHeld(l, trips, kid, l.MaxAge(), true, asked, at);
    }
  }

  /** What a lookup without a fresh key rests on: a trip of its own, or a throttle interval that was running when it asked
    * for one; and then a key is served only while the last trip counts as failed. */
  lemma MissMakesTrip(l: Limits, trips: seq<Trip>, kid: string, r: Result<Jwk, JwkError>, own: bool, asked: nat, at: nat)
    requires Justified(l, trips, kid, r, own, asked, at) && Held(After(trips), l.ttl, kid, at) == None
    ensures own || Throttled(l, trips, asked)
    ensures r.Ok? ==> own || LastFailed(trips)
  {
    var latest := AfterLatest(trips);
    if r.Ok? {
      var i :| Serves(l, trips, kid, r.value, own, asked, at, i);
      assert i == latest;
    }
  }

  /** The cache refines direct lookup: while the key service holds one key set, whatever failed, aged or
    * was looked up before, an answer about the key is the answer of the key service itself; any other
    * answer is how the key service failed the trip of this very call, and there is none while it does not fail. */
  lemma RefinesDirectLookup(l: Limits, upstream: Upstream, trips: seq<Trip>, kid: string,
                            r: Result<Jwk, JwkError>, own: bool, asked: nat, at: nat, now: nat)
    requires Faithful(upstream, trips) && Justified(l, trips, kid, r, own, asked, at)
    requires forall t, t' :: upstream.keys(t) == upstream.keys(t')
    ensures (r.Ok? || r == Err(NotFound)) ==> r == Lookup(upstream.keys(now), kid)
    ensures (r == Err(BadConnection) || r == Err(BadResponse)) ==> own && upstream.fault(trips[|trips| - 1].seen) == Some(r.error)
    ensures (forall t :: upstream.fault(t) == None) ==> r == Lookup(upstream.keys(now), kid)
  {
    if r.Ok? || r == Err(NotFound) {
      var i :| if r.Ok? then Serves(l, trips, kid, r.value, own, asked, at, i) else Refuses(l, trips, kid, own, asked, at, i);
      assert trips[i].outcome.value == upstream.keys(trips[i].seen) == upstream.keys(now);
    } else {
      assert trips[|trips| - 1].Honest(upstream);
    }
  }

  /** Bounded staleness: a key that the key service stopped holding at `gone` is not served `latency`
    * plus TTL plus grace later, and the grace counts only if the last trip failed. */
  lemma RemovedKeyFades(l: Limits, upstream: Upstream, trips: seq<Trip>, kid: string, k: Jwk,
                        own: bool, asked: nat, at: nat, gone: nat, latency: nat)
    requires Faithful(upstream, trips) && Justified(l, trips, kid, Ok(k), own, asked, at)
    requires forall t :: gone <= t ==> Find(upstream.keys(t), kid) != Some(k)
    requires forall i :: 0 <= i < |trips| ==> trips[i].ended <= trips[i].started + latency
    ensures k.kid == kid
    ensures at < gone + latency + l.MaxAge()
    ensures !LastFailed(trips) ==> at < gone + latency + l.ttl
  {
    var i :| Serves(l, trips, kid, k, own, asked, at, i);
    assert trips[i].outcome.value == upstream.keys(trips[i].seen);
    assert trips[i].seen < gone;
  }

  /** The other way round: a key that the key service has held since `born` is refused as unknown only
    * for the throttle interval or one trip, and during an outage for at most the TTL after that. */
  lemma NewKeyAppears(l: Limits, upstream: Upstream, trips: seq<Trip>, kid: string,
                      own: bool, asked: nat, at: nat, born: nat, latency: nat)
    requires Faithful(upstream, trips) && Justified(l, trips, kid, Err(NotFound), own, asked, at)
    requires forall t :: born <= t ==> Find(upstream.keys(t), kid).Some?
    requires forall i :: 0 <= i < |trips| ==> trips[i].ended <= trips[i].started + latency
    ensures !LastFailed(trips) ==> at < born + latency || at < born + l.missInterval
    ensures at < born + latency + l.ttl
  {
    var i :| Refuses(l, trips, kid, own, asked, at, i);
    assert trips[i].outcome.value == upstream.keys(trips[i].seen);
    assert trips[i].seen < born;
  }

  /** The trip bound between any two consecutive trips, read at the start of the second. */
  lemma TripsApart(l: Limits, trips: seq<Trip>, i: int)
    requires Spaced(l, trips) && 0 < i < |trips|
    requires Younger(After(trips[..i]), l.ttl, trips[i].started)
             || (trips[i - 1].outcome.Err? && Held(After(trips[..i]), l.MaxAge(), trips[i].kid, trips[i].started).Some?)
    ensures trips[i - 1].started + l.missInterval <= trips[i].started
  {
    assert MayStart(l, trips[..i], trips[i].kid, trips[i].started);
    assert trips[..i][|trips[..i]| - 1] == trips[i - 1];
  }

  /** The bound added up: as long as every trip found the cache fresh, `n` more trips take at least `n`
    * throttle intervals, however many lookups there were. */
  lemma {:induction false} TripsTakeTime(l: Limits, trips: seq<Trip>, n: nat)
    requires Spaced(l, trips) && n < |trips|
    requires forall i :: 0 < i < |trips| ==> Younger(After(trips[..i]), l.ttl, trips[i].started)
    ensures trips[0].started + n * l.missInterval <= trips[n].started
  {
    if n > 0 {
      TripsTakeTime(l, trips, n - 1);
      TripsApart(l, trips, n);
      assert n * l.missInterval == (n - 1) * l.missInterval + l.missInterval;
    }
  }

  // ---- One instant ----

  datatype Decision = Reply(result: Result<Jwk, JwkError>) | Fetch

  /** What `public_key` does when no time passes and nobody else runs. */
  function Decide(l: Limits, c: CacheState, kid: string, now: nat): Decision {
    var hit := Held(c, l.ttl, kid, now);
    var stale := Held(c, l.MaxAge(), kid, now);
    if hit.Some? then Reply(Ok(hit.value))
    else if Elapsed(c.lastAttempt, l.missInterval, now) then Fetch
    else if !Elapsed(c.lastFailure, l.missInterval, now) && c.lastFailure.Some? && stale.Some? then Reply(Ok(stale.value))
    else if Younger(c, l.ttl, now) then Reply(Err(NotFound))
    else Fetch
  }

  /** What it answers after its own trip. */
  function Settle(l: Limits, c: CacheState, kid: string, now: nat, outcome: Result<KeySet, JwkError>): Result<Jwk, JwkError> {
    match outcome
    case Ok(keys) => Lookup(keys, kid)
    case Err(e) =>
      match Held(c, l.MaxAge(), kid, now)
      case Some(k) => Ok(k)
      case None => Err(e)
  }

  /** The answer at one instant while the key service is down. */
  function AnswerWhenDown(l: Limits, c: CacheState, kid: string, now: nat, e: JwkError): Result<Jwk, JwkError> {
    match Decide(l, c, kid, now)
    case Reply(r) => r
    case Fetch => Settle(l, c, kid, now, Err(e))
  }

  /** `has_servable_snapshot`. */
  predicate HasServableSnapshot(l: Limits, c: CacheState, now: nat) {
    Younger(c, l.MaxAge(), now) && c.entry.value.keys != []
  }

  /** Readiness matches ability: with the key service down, the probe holds exactly when some key is
    * still served, and then the snapshot answers for every `kid` as the key service would. */
  lemma ReadinessMatchesAbility(l: Limits, c: CacheState, now: nat, e: JwkError)
    ensures HasServableSnapshot(l, c, now) <==> exists kid :: AnswerWhenDown(l, c, kid, now, e).Ok?
    ensures HasServableSnapshot(l, c, now) ==>
              forall k :: k in c.entry.value.keys ==>
                AnswerWhenDown(l, c, k.kid, now, e) == Lookup(c.entry.value.keys, k.kid)
  {
    if HasServableSnapshot(l, c, now) {
      assert AnswerWhenDown(l, c, c.entry.value.keys[0].kid, now, e).Ok?;
    }
  }
}
