/** Replay protection of one-time codes over a run of requests. */
module Replay {
  import opened Common
  import opened Redis
  import opened Base32
  import opened Totp

  type Instant = t: nat | t < U64 * MILLIS

  /** A code that was reserved in the store: when it validated, and when the reservation took effect. */
  datatype Claim = Claim(code: string, hash: string, validatedAt: Instant, claimedAt: Instant) {
    function Latency(): int {
      claimedAt - validatedAt
    }
  }

  /** What became of the reservation of a request. */
  datatype Guard = NotTried | Reserved | Reused | Unavailable

  /** A SET NX EX that was sent: the key, its lifetime and the moment. */
  datatype Sent = Sent(hash: string, ttl: nat, at: Instant)

  predicate Grows(before: seq<Claim>, after: seq<Claim>) {
    |before| <= |after| && forall i :: 0 <= i < |before| ==> after[i] == before[i]
  }

  /** Reservations of one fingerprint are a whole retention apart. */
  predicate Apart(claims: seq<Claim>, retention: nat) {
    forall i, j :: 0 <= i < j < |claims| && claims[i].hash == claims[j].hash ==>
      claims[i].claimedAt + retention <= claims[j].claimedAt
  }

  /** The reservations that are not over, which is what the store should hold. */
  function Live(claims: seq<Claim>, retention: nat, now: nat): map<string, nat> {
    if claims == [] then map[]
    else
      var rest, last := Live(claims[..|claims| - 1], retention, now), claims[|claims| - 1];
      if now < last.claimedAt + retention then rest[last.hash := last.claimedAt + retention] else rest
  }

  /** Which codes validate at which second. */
  type Acceptance = (string, nat) -> bool

  ghost function Accepting(totp: TotpValidator): Acceptance {
    (code: string, second: nat) => totp.Valid() && Accepts(totp, code, second)
  }

  /** A reserved code validated at a moment before its reservation. */
  ghost predicate Genuine(accepts: Acceptance, fingerprint: string -> Option<string>, claim: Claim, now: nat)
  {
    && fingerprint(claim.code) == Some(claim.hash)
    && accepts(claim.code, Secs(claim.validatedAt))
    && claim.validatedAt <= claim.claimedAt <= now
  }

  /** The log of reservations: only codes that validated, in order, a retention apart. */
  ghost predicate Sound(accepts: Acceptance, fingerprint: string -> Option<string>, window: nat, claims: seq<Claim>, now: nat)
  {
    && Apart(claims, window * MILLIS)
    && forall i :: 0 <= i < |claims| ==> Genuine(accepts, fingerprint, claims[i], now)
  }

  lemma SoundLater(accepts: Acceptance, fingerprint: string -> Option<string>, window: nat, claims: seq<Claim>, now: nat, later: nat)
    requires now <= later && Sound(accepts, fingerprint, window, claims, now)
    ensures Sound(accepts, fingerprint, window, claims, later)
  {
    forall i | 0 <= i < |claims| ensures Genuine(accepts, fingerprint, claims[i], later) {
      assert Genuine(accepts, fingerprint, claims[i], now);
    }
  }

  /** What is stored is a reservation that is not over, and every such reservation is stored. */
  lemma {:induction false} LiveExact(claims: seq<Claim>, retention: nat, now: nat, hash: string)
    ensures hash in Live(claims, retention, now) <==>
              exists i :: 0 <= i < |claims| && claims[i].hash == hash && now < claims[i].claimedAt + retention
    ensures hash in Live(claims, retention, now) ==>
              exists i :: 0 <= i < |claims| && claims[i].hash == hash
                          && now < Live(claims, retention, now)[hash] == claims[i].claimedAt + retention
  {
    if claims != [] {
      var n := |claims| - 1;
      var rest := claims[..n];
      LiveExact(rest, retention, now, hash);
      if hash in Live(rest, retention, now) {
        var i :| 0 <= i < |rest| && rest[i].hash == hash
                 && now < Live(rest, retention, now)[hash] == rest[i].claimedAt + retention;
        assert claims[i].hash == hash;
      }
      forall i | 0 <= i < |claims| && claims[i].hash == hash && now < claims[i].claimedAt + retention
        ensures hash in Live(claims, retention, now)
      {
        assert i < n ==> rest[i] == claims[i];
      }
    }
  }

  /** Expiry in the store is expiry of reservations. */
  lemma {:induction false} LiveLater(claims: seq<Claim>, retention: nat, now: nat, later: nat)
    requires now <= later && Apart(claims, retention)
    ensures Live(claims, retention, later) ==
            map h | h in Live(claims, retention, now) && later < Live(claims, retention, now)[h] :: Live(claims, retention, now)[h]
  {
    if claims != [] {
      var n := |claims| - 1;
      var last := claims[n];
      LiveLater(claims[..n], retention, now, later);
      LiveExact(claims[..n], retention, now, last.hash);
    }
  }

  /** A fingerprint that is not stored may be reserved: its last reservation is over. */
  lemma SoundMore(accepts: Acceptance, fingerprint: string -> Option<string>, window: nat, claims: seq<Claim>, claim: Claim)
    requires Sound(accepts, fingerprint, window, claims, claim.claimedAt)
    requires claim.hash !in Live(claims, window * MILLIS, claim.claimedAt)
    requires Genuine(accepts, fingerprint, claim, claim.claimedAt)
    ensures Sound(accepts, fingerprint, window, claims + [claim], claim.claimedAt)
  {
    LiveExact(claims, window * MILLIS, claim.claimedAt, claim.hash);
  }

  lemma LiveMore(claims: seq<Claim>, claim: Claim, retention: nat)
    requires retention > 0
    ensures Live(claims + [claim], retention, claim.claimedAt) ==
            Live(claims, retention, claim.claimedAt)[claim.hash := claim.claimedAt + retention]
  {
    assert (claims + [claim])[..|claims|] == claims;
  }

  /** The store holds the log. */
  ghost predicate Kept(accepts: Acceptance, fingerprint: string -> Option<string>, window: nat, codes: map<string, nat>, claims: seq<Claim>, now: nat)
  {
    codes == Live(claims, window * MILLIS, now) && Sound(accepts, fingerprint, window, claims, now)
  }

  /** Creating the key of a free fingerprint is adding its reservation to the log. */
  lemma Reserve(accepts: Acceptance, fingerprint: string -> Option<string>, window: nat, codes: map<string, nat>, claims: seq<Claim>, claim: Claim)
    requires window > 0 && Kept(accepts, fingerprint, window, codes, claims, claim.claimedAt)
    requires claim.hash !in codes
    requires Genuine(accepts, fingerprint, claim, claim.claimedAt)
    ensures Kept(accepts, fingerprint, window, codes[claim.hash := claim.claimedAt + window * MILLIS], claims + [claim], claim.claimedAt)
  {
    SoundMore(accepts, fingerprint, window, claims, claim);
    LiveMore(claims, claim, window * MILLIS);
  }

  /** SET NX EX keeps store and log together. */
  lemma ReserveNx(accepts: Acceptance, fingerprint: string -> Option<string>, window: nat, db: Db, claims: seq<Claim>, claim: Claim)
    requires window > 0 && Kept(accepts, fingerprint, window, db.codes, claims, claim.claimedAt)
    requires Genuine(accepts, fingerprint, claim, claim.claimedAt)
    ensures Kept(accepts, fingerprint, window, SetNxEx(db, claim.claimedAt, claim.hash, window).codes,
                 if claim.hash in db.codes then claims else claims + [claim], claim.claimedAt)
  {
    if claim.hash !in db.codes {
      Reserve(accepts, fingerprint, window, db.codes, claims, claim);
    }
  }

  class AuthMiddleware {
    const totp: TotpValidator
    const replayProtection: bool
    /** The HMAC of a code under the first secret, or `None` when it cannot be computed. */
    const fingerprint: string -> Option<string>
    /** How many seconds a reservation lasts. */
    const window: U64Int
    /** What becomes of the commands, one by one. */
    const fault: nat -> Fault
    var db: Db
    var clock: Instant
    var sent: seq<Sent>
    ghost var claims: seq<Claim>

    constructor (totp: TotpValidator, replayProtection: bool, fingerprint: string -> Option<string>, fault: nat -> Fault)
      requires totp.Valid()
      ensures Valid() && claims == [] && sent == [] && window == ReplayWindow(totp)
      ensures this.totp == totp && this.replayProtection == replayProtection && this.fingerprint == fingerprint && this.fault == fault
    {
      this.totp, this.replayProtection, this.fingerprint, this.fault := totp, replayProtection, fingerprint, fault;
      window := ReplayWindow(totp);
      db, clock, sent, claims := EMPTY_DB, 0, [], [];
    }

    ghost function Retention(): nat {
      window * MILLIS
    }

    ghost predicate Valid()
      reads this
    {
      && totp.Valid()
      && Kept(Accepting(totp), fingerprint, window, db.codes, claims, clock)
    }

    method Pause()
      requires Valid()
      modifies `clock, `db
      ensures Valid() && old(clock) <= clock
    {
      var d: int := *;
      if d > 0 && clock + d < U64 * MILLIS {
        SoundLater(Accepting(totp), fingerprint, window, claims, clock, clock + d);
        LiveLater(claims, Retention(), clock, clock + d);
        clock := clock + d;
        db := Expire(db, clock);
      }
    }

    /** SET NX EX: the key is created, and the reservation with it, unless the key is there. */
    method SetNx(hash: string, ttl: nat, ghost claim: Claim) returns (created: bool)
      requires Valid() && ttl == window && ttl > 0
      requires claim.hash == hash && claim.claimedAt == clock && Genuine(Accepting(totp), fingerprint, claim, clock)
      modifies `db, `claims
      ensures Valid()
      ensures created <==> hash !in old(db.codes)
      ensures created ==> claims == old(claims) + [claim]
      ensures !created ==> claims == old(claims)
    {
      created := hash !in db.codes;
      ghost var kept := if created then claims + [claim] else claims;
      ReserveNx(Accepting(totp), fingerprint, window, db, claims, claim);
      assert Kept(Accepting(totp), fingerprint, window, SetNxEx(db, clock, hash, ttl).codes, kept, clock);
      db := SetNxEx(db, clock, hash, ttl);
      claims := kept;
    }

    /** The last command sent is this call's, and no fault befell it. */
    predicate Answered()
      reads this
    {
      sent != [] && fault(|sent| - 1).NoFault? && window > 0
    }

    /** The reservation of a code: one command, which succeeds unless it fails on the way or its lifetime is zero. */
    method ClaimTotpCode(hash: string, ttl: nat, ghost claim: Claim) returns (r: Result<bool, JtiError>)
      requires Valid() && ttl == window
      requires claim.hash == hash && claim.claimedAt == clock && Genuine(Accepting(totp), fingerprint, claim, clock)
      modifies `db, `claims, `sent
      ensures Valid()
      ensures sent == old(sent) + [Sent(hash, ttl, clock)]
      ensures r.Ok? <==> Answered()
      ensures r.Ok? ==> (r.value <==> hash !in old(db.codes))
      ensures r == Ok(true) ==> claims == old(claims) + [claim]
      ensures r == Ok(false) ==> claims == old(claims)
      ensures r.Err? ==> claims == old(claims) || claims == old(claims) + [claim]
    {
      var outcome := fault(|sent|);
      sent := sent + [Sent(hash, ttl, clock)];
      if outcome.Unsent? {
        return Err(BadConnection);
      }
      if ttl == 0 {
        return Err(WrongOperation);
      }
      var created := SetNx(hash, ttl, claim);
      r := if outcome.Unanswered? then Err(BadConnection) else Ok(created);
    }

    /** Another request, validated at some moment so far, reserves its code. */
    method OtherRequest(code: string, at: Instant)
      requires Valid() && at <= clock
      modifies `db, `claims, `sent
      ensures Valid() && Grows(old(claims), claims) && |old(sent)| <= |sent|
    {
      var matched := Validate(totp, Some(code), Secs(at));
      var hash := fingerprint(code);
      if matched && hash.Some? {
        var r := ClaimTotpCode(hash.value, window, Claim(code, hash.value, at, clock));
      }
    }

    /** Any number of other requests reserve their codes, and time passes. */
    method Interfere()
      requires Valid()
      modifies `db, `claims, `clock, `sent
      ensures Valid() && old(clock) <= clock && Grows(old(claims), claims) && |old(sent)| <= |sent|
    {
      var others: int := *;
      while others > 0
        invariant Valid() && old(clock) <= clock && Grows(old(claims), claims) && |old(sent)| <= |sent|
      {
        Pause();
        var code: string := *;
        var at: int := *;
        if 0 <= at <= clock {
          OtherRequest(code, at);
        }
        others := others - 1;
      }
      Pause();
    }

    /** What the store says about a validated code. `before` is the log of reservations that the command found. */
    method Guarded(code: string, hash: string) returns (guard: Guard, ghost before: seq<Claim>)
      requires Valid() && fingerprint(code) == Some(hash) && Accepts(totp, code, Secs(clock))
      modifies this
      ensures Valid() && old(clock) <= clock && Grows(old(claims), before) && Grows(before, claims)
      ensures |sent| > |old(sent)| && sent[|sent| - 1] == Sent(hash, window, clock)
      ensures guard != NotTried && (guard == Unavailable <==> !Answered())
      ensures guard != Unavailable ==> (guard == Reused <==> hash in Live(before, Retention(), clock))
      ensures guard == Reserved ==> claims == before + [Claim(code, hash, old(clock), clock)]
      ensures guard == Reused ==> claims == before
    {
      ghost var validatedAt := clock;
      Interfere();
      before := claims;
      var r := ClaimTotpCode(hash, window, Claim(code, hash, validatedAt, clock));
      guard := if r == Ok(true) then Reserved else if r == Ok(false) then Reused else Unavailable;
    }

    /** The level 3 part of `call`: validate, reserve, and let the request through or not. Whether a reservation is
      * tried depends on the code and the settings alone; if it is, its command is the last one sent, and the guard is
      * what the store answered: reused exactly when the fingerprint was stored, that is while one of its reservations
      * runs (`LiveExact`), unavailable exactly when there was no answer. */
    method Call(header: Option<string>) returns (authorized: bool, ghost guard: Guard, ghost before: seq<Claim>)
      requires Valid()
      modifies this
      ensures Valid() && old(clock) <= clock && Grows(old(claims), before) && Grows(before, claims)
      ensures authorized <==> header.Some? && Accepts(totp, header.value, Secs(old(clock))) && guard != Reused
      ensures guard != NotTried <==> header.Some? && Accepts(totp, header.value, Secs(old(clock)))
                                     && replayProtection && fingerprint(header.value).Some?
      ensures guard == NotTried ==> claims == old(claims) && sent == old(sent)
      ensures guard != NotTried ==> |sent| > |old(sent)|
      ensures guard != NotTried ==> sent[|sent| - 1] == Sent(fingerprint(header.value).value, window, clock)
      ensures guard != NotTried ==> (guard == Unavailable <==> !Answered())
      ensures guard != NotTried && Answered() ==>
                (guard == Reused <==> fingerprint(header.value).value in Live(before, Retention(), clock))
      ensures guard == Reserved ==>
                claims == before + [Claim(header.value, fingerprint(header.value).value, old(clock), clock)]
      ensures guard == Reused ==> claims == before
    {
      guard, before := NotTried, claims;
      authorized := Validate(totp, header, Secs(clock));
      if authorized && replayProtection {
        var hash := fingerprint(header.value);
        if hash.Some? {
          var answer;
          answer, before := Guarded(header.value, hash.value);
          guard := answer;
          if answer == Reused {
            authorized := false;
          }
        }
      }
    }
  }

  /** No replay: of two requests let through on the same code, the second was validated when none of the
    * counters behind the first was accepted any more, provided it was not held up longer between
    * validation and reservation than the first. */
  lemma NoSharedCounter(totp: TotpValidator, fingerprint: string -> Option<string>, claims: seq<Claim>, now: nat, i: nat, j: nat)
    requires totp.Valid() && WindowFits(totp) && i < j < |claims|
    requires Sound(Accepting(totp), fingerprint, ReplayWindow(totp), claims, now)
    requires claims[i].code == claims[j].code
    requires claims[j].Latency() <= claims[i].Latency()
    ensures claims[i].claimedAt + totp.step * (2 * totp.skew + 1) * MILLIS <= claims[j].claimedAt
    ensures !exists k, c :: Justifies(totp, claims[i].code, Secs(claims[i].validatedAt), k, c)
                            && Justifies(totp, claims[i].code, Secs(claims[j].validatedAt), k, c)
  {
    ReplayWindowExact(totp);
    var w := ReplayWindow(totp);
    assert Genuine(Accepting(totp), fingerprint, claims[i], now) && Genuine(Accepting(totp), fingerprint, claims[j], now);
    assert claims[i].hash == claims[j].hash;
    assert claims[i].validatedAt + w * MILLIS <= claims[j].validatedAt;
    RetentionSuffices(totp, Secs(claims[i].validatedAt), Secs(claims[j].validatedAt), claims[i].code);
  }

  /** One secret and counter justify both requests. */
  ghost predicate ShareCounter(totp: TotpValidator, a: Claim, b: Claim)
    requires totp.Valid()
  {
    a.code == b.code
    && exists k, c :: Justifies(totp, a.code, Secs(a.validatedAt), k, c) && Justifies(totp, b.code, Secs(b.validatedAt), k, c)
  }

  /** Some sound log lets two requests through on one counter, held up `li` and `lj` between validation and
    * reservation. */
  ghost predicate ReplayAt(totp: TotpValidator, fingerprint: string -> Option<string>, li: nat, lj: nat,
                           claims: seq<Claim>, i: nat, j: nat, now: nat)
    requires totp.Valid()
  {
    && i < j < |claims| && Sound(Accepting(totp), fingerprint, ReplayWindow(totp), claims, now)
    && claims[i].Latency() == li && claims[j].Latency() == lj && ShareCounter(totp, claims[i], claims[j])
  }

  /** A code of an active secret whose counter is away from both ends of time. */
  ghost predicate Usable(totp: TotpValidator, fingerprint: string -> Option<string>, code: string, hash: string, k: nat, counter: U64Int)
    requires totp.Valid()
  {
    && k < |totp.secrets| && CodeOf(totp, totp.secrets[k], counter, code) && fingerprint(code) == Some(hash)
    && totp.skew <= counter && (counter + totp.skew + 1) * totp.step < U64
  }

  /** A request held up this long at the end of the counter's window is still within 64-bit seconds. */
  predicate InTime(totp: TotpValidator, counter: U64Int, delay: nat) {
    (counter + totp.skew + 1) * totp.step * MILLIS + delay <= U64 * MILLIS
  }

  /** The second of two requests on a usable code is held up longer than the first: both are let through on
    * one counter, at the two ends of its window. */
  lemma LatencyReplay(totp: TotpValidator, fingerprint: string -> Option<string>, code: string, hash: string,
                      k: nat, counter: U64Int, li: nat, lj: nat) returns (claims: seq<Claim>)
    requires totp.Valid() && WindowFits(totp) && Usable(totp, fingerprint, code, hash, k, counter) && li < lj
    requires InTime(totp, counter, lj)
    ensures |claims| == 2 && ReplayAt(totp, fingerprint, li, lj, claims, 0, 1, claims[1].claimedAt)
  {
    RetentionNeeded(totp, counter);
    ReplayWindowExact(totp);
    var first, last := (counter - totp.skew) * totp.step, (counter + totp.skew + 1) * totp.step - 1;
    var a := Claim(code, hash, first * MILLIS, first * MILLIS + li);
    var b := Claim(code, hash, last * MILLIS + 999, last * MILLIS + 999 + lj);
    assert Secs(a.validatedAt) == first && Secs(b.validatedAt) == last;
    assert Justifies(totp, code, first, k, counter) && Justifies(totp, code, last, k, counter);
    claims := [a, b];
    TwoClaims(totp, fingerprint, a, b);
  }

  /** Two genuine reservations a retention apart are a sound log. */
  lemma TwoClaims(totp: TotpValidator, fingerprint: string -> Option<string>, a: Claim, b: Claim)
    requires totp.Valid() && a.claimedAt + ReplayWindow(totp) * MILLIS <= b.claimedAt
    requires Genuine(Accepting(totp), fingerprint, a, b.claimedAt) && Genuine(Accepting(totp), fingerprint, b, b.claimedAt)
    ensures Sound(Accepting(totp), fingerprint, ReplayWindow(totp), [a, b], b.claimedAt)
  {
  }

  /** Exactly when replay protection fails: for any usable code, two requests held up `li` and `lj` can be
    * let through on one counter if and only if the second is held up longer. */
  lemma ReplayIff(totp: TotpValidator, fingerprint: string -> Option<string>, code: string, hash: string,
                  k: nat, counter: U64Int, li: nat, lj: nat)
    requires totp.Valid() && WindowFits(totp) && Usable(totp, fingerprint, code, hash, k, counter) && InTime(totp, counter, lj)
    ensures (exists claims, i, j, now :: ReplayAt(totp, fingerprint, li, lj, claims, i, j, now)) <==> li < lj
  {
    if li < lj {
      var claims := LatencyReplay(totp, fingerprint, code, hash, k, counter, li, lj);
    } else {
      forall claims, i, j, now ensures !ReplayAt(totp, fingerprint, li, lj, claims, i, j, now) {
        if ReplayAt(totp, fingerprint, li, lj, claims, i, j, now) {
          NoSharedCounter(totp, fingerprint, claims, now, i, j);
        }
      }
    }
  }
}
