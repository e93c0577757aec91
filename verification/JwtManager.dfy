/** The handlers' operations on tokens, as sequences of store calls with early returns.
  *
  * Every operation is a request of the step machine from `Begin` to `Done`, under any
  * interference, so what is proved over all runs holds of what these methods return.
  */
module JwtManager {
  import opened Common
  import opened Redis
  import opened Claims
  import opened Protocol
  import opened ProtocolCover
  import opened ProtocolTheorems
  import opened ProtocolRevocation
  import opened ProtocolSubject
  import opened RedisStore

  /** What a caller learns from the outcome of a request. */
  predicate Answers(outcome: Outcome, res: Result<(TokenClaims, Id), JwtError>) {
    match outcome
    case Paired(access, refresh) => res == Ok((access, refresh))
    case Rejected(error) => res == Err(error)
    case _ => false
  }

  /** A new request enters the machine. */
  method Open(store: RedisClient, ghost r: nat, ghost op: Op, ghost uuid: Id, ghost spare: set<Id>)
    requires store.Valid() && r !in store.State().reqs && store.Unused(spare + {uuid}) && uuid !in spare
    requires Named(op) !! (spare + {uuid}) && Guessed(store.State(), op)
    modifies store
    ensures old(store.events) <= store.events && store.Unused(spare)
    ensures store.Serves(r, First(op, uuid)) && store.sent == old(store.sent) && store.clock == old(store.clock)
  {
    Snoc(store.cfg, store.events, Begin(r, op, uuid));
    store.events := store.events + [Begin(r, op, uuid)];
  }

  /** A client presents a refresh token it was given, or something it made up. */
  ghost predicate Guessed(s: Sys, op: Op) {
    forall id :: id in Named(op) && id in s.hist.ids ==> id in s.hist.handed
  }

  /** The lifetime a plan asks for, or the configured one. */
  function Wanted(cfg: Config, plan: Plan): Option<nat> {
    if plan.ttl.Some? then plan.ttl else cfg.accessTtl
  }

  /** The claims are what the plan asked for, under the identifier that was drawn, with a lifetime the
    * settings allow. */
  predicate Fulfils(cfg: Config, plan: Plan, claims: TokenClaims, jti: Id) {
    && claims.iss == plan.issuer && claims.sub == plan.subject && claims.aud == plan.audience && claims.extra == plan.extra
    && claims.jti == jti && claims.nbf == claims.iat <= claims.exp
    && Wanted(cfg, plan) == Some(claims.exp - claims.iat) && CustomClaimsOk(cfg, plan.extra) && plan.audience != []
  }

  lemma DraftFulfils(cfg: Config, plan: Plan, now: nat, jti: Id)
    requires DraftOf(cfg, plan, now).Some?
    ensures var claims := DraftOf(cfg, plan, now).value.0;
      Fulfils(cfg, plan, claims.(jti := jti), jti) && claims.iat == Secs(now)
    ensures Wanted(cfg, plan) == Some(DraftOf(cfg, plan, now).value.1)
  {
  }

  function DraftOf(cfg: Config, plan: Plan, now: nat): Option<(TokenClaims, nat)> {
    Draft(cfg, plan.issuer, plan.subject, plan.audience, plan.ttl, plan.extra, now)
  }

  /** Exactly what issue asks of a plan, whatever the time: custom claims within both limits and free of reserved names, a
    * lifetime within its bounds or a configured one, and an audience. */
  lemma DraftIff(cfg: Config, plan: Plan, now: nat)
    ensures DraftOf(cfg, plan, now).Some? <==>
      && (plan.extra == []
          || (|plan.extra| <= cfg.claimsMaxCount && cfg.jsonSize(plan.extra) <= cfg.claimsMaxBytes
              && forall f :: f in plan.extra ==> f.name !in ["iss", "sub", "aud", "exp", "iat", "nbf", "jti"]))
      && (if plan.ttl.Some? then cfg.ttlMin <= plan.ttl.value <= cfg.ttlMax else cfg.accessTtl.Some?)
      && plan.audience != []
    ensures DraftOf(cfg, plan, now).Some? <==> Issuable(cfg, plan)
  {
    forall f | f in plan.extra && CustomClaimsOk(cfg, plan.extra) ensures f.name !in RESERVED_CLAIMS {
      var i :| 0 <= i < |plan.extra| && plan.extra[i] == f;
    }
  }

  predicate Issuable(cfg: Config, plan: Plan) {
    DraftOf(cfg, plan, 0).Some?
  }

  /** Event `at` of the run is the self-check of request `r`, and the claims fail it. */
  ghost predicate FailsCheckAt(cfg: Config, es: seq<Event>, at: nat, r: nat) {
    at < |es| && es[at].Exec? && es[at].r == r && r in StateAt(cfg, es, at).reqs
    && var s := StateAt(cfg, es, at);
       match s.reqs[r]
       case Enrol(SelfCheck, job, _) => job.claims.aud == [] || !Verifies(s.db, job.claims, job.claims.iss, job.claims.aud[0], s.now)
       case _ => false
  }

  ghost predicate FailsCheck(cfg: Config, es: seq<Event>, from: nat, r: nat) {
    exists at: nat :: from <= at && FailsCheckAt(cfg, es, at, r)
  }

  lemma FailsCheckLater(cfg: Config, es: seq<Event>, later: seq<Event>, since: nat, from: nat, r: nat)
    requires FailsCheck(cfg, es, from, r) && es <= later && since <= from
    ensures FailsCheck(cfg, later, since, r)
  {
    var at: nat :| from <= at && FailsCheckAt(cfg, es, at, r);
    assert later[..at] == es[..at];
    assert FailsCheckAt(cfg, later, at, r);
  }

  /** What an issue ended with, given the key, the signature, the faults its commands met and whether it failed its own
    * check. */
  predicate IssueError(cfg: Config, plan: Plan, keyOk: bool, signOk: bool, clean: bool, failsCheck: bool, error: Option<JwtError>) {
    && (error == Some(KeyError) <==> !keyOk)
    && (error == Some(UnprocessableEntity) <==> keyOk && !Issuable(cfg, plan))
    && (error == Some(BadSignature) ==> keyOk && !signOk)
    && (error == Some(StoreError) ==> !clean || Wanted(cfg, plan) == Some(0) || failsCheck)
    && (error == None ==> signOk && clean)
    && (!clean ==> error == Some(StoreError))
    && (error.Some? ==> error.value in [KeyError, UnprocessableEntity, BadSignature, StoreError])
  }

  function ErrorOf<T>(res: Result<T, JwtError>): Option<JwtError> {
    match res
    case Ok(_) => None
    case Err(error) => Some(error)
  }

  /** Claims, `jti` record, subject index, self-check: `create_new` together with the signing around it. */
  method GenerateToken(store: RedisClient, plan: Plan, keyOk: bool, signOk: bool, jti: Id, ghost r: nat, ghost spare: set<Id>)
    returns (res: Result<TokenClaims, JwtError>, ghost ttl: nat)
    requires store.Serves(r, Build(plan)) && store.Unused(spare + {jti}) && jti !in spare
    modifies store
    ensures old(store.events) <= store.events && old(store.sent) <= store.sent
    ensures res.Ok? ==> store.Unused(spare) && store.Serves(r, Minted(plan.family, Job(res.value, ttl))) && store.sent == old(store.sent) + 4
    ensures res.Ok? ==> Fulfils(store.cfg, plan, res.value, jti) && res.value.iat == Secs(old(store.clock)) && res.value.exp == res.value.iat + ttl
    ensures res.Err? ==> res.error != NotValid && store.Serves(r, Done(Rejected(res.error)))
    ensures IssueError(store.cfg, plan, keyOk, signOk, store.Clean(old(store.sent)),
                       FailsCheck(store.cfg, store.events, |old(store.events)|, r), ErrorOf(res))
  {
    ttl := 0;
    DraftIff(store.cfg, plan, store.clock);
    if !keyOk {
      store.Fail(KeyError, r, spare);
      return Err(KeyError), ttl;
    }
    var draft := Draft(store.cfg, plan.issuer, plan.subject, plan.audience, plan.ttl, plan.extra, store.clock);
    store.Think(r, Build(plan), spare + {jti});
    if draft.None? { return Err(UnprocessableEntity), ttl; }
    DraftFulfils(store.cfg, plan, store.clock, jti);
    var (claims, life) := draft.value;
    ttl := life;
    ghost var from := |store.events|;
    res := Sign(store, claims, life, signOk, jti, plan.family, r, spare);
    if FailsCheck(store.cfg, store.events, from, r) {
      FailsCheckLater(store.cfg, store.events, store.events, |old(store.events)|, from, r);
    }
  }

  /** The store's part of an issue, and the signature. */
  method Sign(store: RedisClient, draft: TokenClaims, ttl: nat, signOk: bool, jti: Id, ghost family: Option<Id>, ghost r: nat, ghost spare: set<Id>)
    returns (res: Result<TokenClaims, JwtError>)
    requires store.Serves(r, PutJti(draft, ttl, family)) && store.Unused(spare + {jti}) && jti !in spare
    modifies store
    ensures old(store.events) <= store.events && old(store.sent) <= store.sent
    ensures res.Ok? ==> res.value == draft.(jti := jti) && signOk && store.Clean(old(store.sent)) && store.sent == old(store.sent) + 4
    ensures res.Ok? ==> store.Unused(spare) && store.Serves(r, Minted(family, Job(res.value, ttl)))
    ensures res.Err? ==> store.Serves(r, Done(Rejected(res.error)))
    ensures res.Err? ==> res.error == StoreError || (res.error == BadSignature && !signOk && store.Clean(old(store.sent)))
    ensures res == Err(StoreError) ==> !store.Clean(old(store.sent)) || ttl == 0 || FailsCheck(store.cfg, store.events, |old(store.events)|, r)
  {
    store.Interfere(r, PutJti(draft, ttl, family), spare + {jti});
    ghost var from := |store.events|;
    res := Enlist(store, draft, ttl, jti, family, r, spare);
    if res.Ok? && !signOk {
      store.Fail(BadSignature, r, spare);
      return Err(BadSignature);
    }
    if FailsCheck(store.cfg, store.events, from, r) {
      FailsCheckLater(store.cfg, store.events, store.events, |old(store.events)|, from, r);
    }
  }

  /** Where a request is once its access token is made. */
  function Minted(family: Option<Id>, job: Job): Pc {
    match family
    case None => Done(Issued(job.claims))
    case Some(f) => Link(FamAdd, job, f, "", 0)
  }

  method Enlist(store: RedisClient, draft: TokenClaims, ttl: nat, jti: Id, ghost family: Option<Id>, ghost r: nat, ghost spare: set<Id>)
    returns (res: Result<TokenClaims, JwtError>)
    requires store.Serves(r, PutJti(draft, ttl, family)) && store.Unused(spare + {jti}) && jti !in spare
    modifies store
    ensures old(store.events) <= store.events && old(store.sent) <= store.sent
    ensures res.Ok? ==> res.value == draft.(jti := jti)
    ensures res.Ok? ==> store.Unused(spare) && store.Serves(r, Minted(family, Job(res.value, ttl)))
    ensures res.Err? ==> res.error == StoreError && store.Serves(r, Done(Rejected(res.error)))
    ensures res.Ok? ==> store.Clean(old(store.sent)) && store.sent == old(store.sent) + 4
    ensures res.Err? ==> !store.Clean(old(store.sent)) || ttl == 0 || FailsCheck(store.cfg, store.events, |old(store.events)|, r)
  {
    var stored := store.StoreJti(jti, ttl, r, spare, draft, family);
    if stored.Err? { return Err(StoreError); }
    var claims := draft.(jti := jti);
    ghost var job := Job(claims, ttl);
    store.Interfere(r, Enrol(SubjAdd, job, family), spare);
    res := EnterSubject(store, claims, r, job, family, spare);
    AllMetSplit(store.fault, old(store.sent), old(store.sent) + 1, store.sent);
  }

  /** The subject index, and the check of the claims against the store. */
  method EnterSubject(store: RedisClient, claims: TokenClaims, ghost r: nat, ghost job: Job, ghost family: Option<Id>, ghost spare: set<Id>)
    returns (res: Result<TokenClaims, JwtError>)
    requires store.Serves(r, Enrol(SubjAdd, job, family)) && store.Unused(spare) && job.claims == claims
    modifies store
    ensures old(store.events) <= store.events && old(store.sent) <= store.sent
    ensures res.Ok? ==> store.Unused(spare) && res.value == claims && store.Serves(r, Minted(family, job))
    ensures res.Err? ==> res.error == StoreError && store.Serves(r, Done(Rejected(res.error)))
    ensures res.Ok? ==> store.Clean(old(store.sent)) && store.sent == old(store.sent) + 3
    ensures res.Err? ==> !store.Clean(old(store.sent)) || FailsCheck(store.cfg, store.events, |old(store.events)|, r)
  {
    var added := store.AddToGroup(SubjectGroup(claims.sub), JtiKey(claims.jti), claims.exp, r, Enrol(SubjAdd, job, family), spare);
    if added.Err? { return Err(StoreError); }
    ghost var middle := store.sent;
    store.Interfere(r, Enrol(SelfCheck, job, family), spare);
    ghost var from := |store.events|;
    res := SelfVerify(store, claims, r, job, family, spare);
    AllMetSplit(store.fault, old(store.sent), middle, store.sent);
    if FailsCheck(store.cfg, store.events, from, r) {
      FailsCheckLater(store.cfg, store.events, store.events, |old(store.events)|, from, r);
    }
  }

  /** The issued claims must pass their own verification. */
  method SelfVerify(store: RedisClient, claims: TokenClaims, ghost r: nat, ghost job: Job, ghost family: Option<Id>, ghost spare: set<Id>)
    returns (res: Result<TokenClaims, JwtError>)
    requires store.Serves(r, Enrol(SelfCheck, job, family)) && store.Unused(spare) && job.claims == claims
    modifies store
    ensures old(store.events) <= store.events && old(store.sent) <= store.sent
    ensures res.Ok? ==> store.Unused(spare) && res.value == claims && store.Serves(r, Minted(family, job))
    ensures res.Err? ==> res.error == StoreError && store.Serves(r, Done(Rejected(res.error)))
    ensures res.Ok? ==> store.Clean(old(store.sent)) && store.sent == old(store.sent) + 1
    ensures res.Err? ==> !store.Clean(old(store.sent)) || FailsCheck(store.cfg, store.events, |old(store.events)|, r)
  {
    var ok := claims.aud != [] && ClaimsValid(claims, claims.iss, claims.aud[0], store.clock);
    if ok {
      var found := store.CheckJti(claims.jti);
      if found.Err? {
        store.Fail(StoreError, r, spare);
        return Err(StoreError);
      }
      ok := found.value;
    }
    ThinkSelfCheck(store, claims, ok, r, job, family, spare);
    res := if ok then Ok(claims) else Err(StoreError);
  }

  method ThinkSelfCheck(store: RedisClient, claims: TokenClaims, ok: bool, ghost r: nat, ghost job: Job, ghost family: Option<Id>, ghost spare: set<Id>)
    requires store.Serves(r, Enrol(SelfCheck, job, family)) && store.Unused(spare) && job.claims == claims
    requires ok <==> claims.aud != [] && Verifies(store.db, claims, claims.iss, claims.aud[0], store.clock)
    modifies store
    ensures old(store.events) <= store.events && store.Unused(spare) && store.sent == old(store.sent)
    ensures store.Serves(r, if ok then Minted(family, job) else Done(Rejected(StoreError)))
    ensures !ok ==> FailsCheck(store.cfg, store.events, |old(store.events)|, r)
  {
    ghost var before := store.events;
    store.Think(r, Enrol(SelfCheck, job, family), spare);
    assert store.events[..|before|] == before;
    assert !ok ==> FailsCheckAt(store.cfg, store.events, |before|, r);
  }

  /** Family index for the access token, refresh record, family index for the refresh token. */
  method IssueRefresh(store: RedisClient, claims: TokenClaims, family: Id, id: Id, ghost r: nat, ghost ttl: nat)
    returns (res: Result<(TokenClaims, Id), JwtError>)
    requires store.Serves(r, Link(FamAdd, Job(claims, ttl), family, "", 0)) && store.Unused({id})
    modifies store
    ensures old(store.events) <= store.events && old(store.sent) <= store.sent && (res.Ok? <==> store.Clean(old(store.sent)))
    ensures res.Ok? ==> store.sent == old(store.sent) + 6
    ensures res.Ok? ==> res.value == (claims, id) && store.Serves(r, Done(Paired(claims, id)))
    ensures res.Err? ==> res.error == StoreError && store.Serves(r, Done(Rejected(res.error)))
  {
    ghost var job := Job(claims, ttl);
    var linked := LinkRecord(store, claims, family, id, r, job);
    if linked.Err? { return Err(StoreError); }
    ghost var middle := store.sent;
    store.Interfere(r, Link(Stamp, job, family, id, 0), {});
    res := LinkRefresh(store, claims, family, id, r, job);
    AllMetSplit(store.fault, old(store.sent), middle, store.sent);
  }

  /** The access token enters the family index and the refresh record is stored. */
  method LinkRecord(store: RedisClient, claims: TokenClaims, family: Id, id: Id, ghost r: nat, ghost job: Job)
    returns (res: Result<(), JwtError>)
    requires store.Serves(r, Link(FamAdd, job, family, "", 0)) && store.Unused({id}) && job.claims == claims
    modifies store
    ensures old(store.events) <= store.events && old(store.sent) <= store.sent && (res.Ok? <==> store.Clean(old(store.sent)))
    ensures res.Ok? ==> store.sent == old(store.sent) + 4
    ensures res.Ok? ==> store.Serves(r, Link(Stamp, job, family, id, 0)) && store.Unused({})
    ensures res.Err? ==> res.error == StoreError && store.Serves(r, Done(Rejected(StoreError)))
  {
    var entered := store.AddToGroup(FamilyGroup(family), JtiKey(claims.jti), claims.exp, r, Link(FamAdd, job, family, "", 0), {id});
    if entered.Err? { return Err(StoreError); }
    ghost var middle := store.sent;
    store.Interfere(r, Link(PutRec, job, family, "", 0), {id});
    var stored := store.StoreRefresh(id, RefreshRecord(claims.sub, claims.aud, family), r, job, {});
    AllMetSplit(store.fault, old(store.sent), middle, store.sent);
    res := if stored.Ok? then Ok(()) else Err(StoreError);
  }

  lemma StampStep(cfg: Config, job: Job, family: Id, id: Id, db: Db, now: nat)
    ensures Next(cfg, Link(Stamp, job, family, id, 0), db, now, "") == Link(IdxAdd, job, family, id, Secs(now) + cfg.refreshTtl)
  {
  }

  /** The refresh token enters the family index, under an expiry read from the clock now. */
  method LinkRefresh(store: RedisClient, claims: TokenClaims, family: Id, id: Id, ghost r: nat, ghost job: Job)
    returns (res: Result<(TokenClaims, Id), JwtError>)
    requires store.Serves(r, Link(Stamp, job, family, id, 0)) && job.claims == claims
    modifies store
    ensures old(store.events) <= store.events && old(store.sent) <= store.sent && (res.Ok? <==> store.Clean(old(store.sent)))
    ensures res.Ok? ==> store.sent == old(store.sent) + 2
    ensures res.Ok? ==> res.value == (claims, id) && store.Serves(r, Done(Paired(claims, id)))
    ensures res.Err? ==> res.error == StoreError && store.Serves(r, Done(Rejected(res.error)))
  {
    var expiresAt := Secs(store.clock) + store.cfg.refreshTtl;
    StampStep(store.cfg, job, family, id, store.db, store.clock);
    store.Think(r, Link(Stamp, job, family, id, 0), {});
    store.Interfere(r, Link(IdxAdd, job, family, id, expiresAt), {});
    var indexed := store.AddToGroup(FamilyGroup(family), RefreshKey(id), expiresAt, r, Link(IdxAdd, job, family, id, expiresAt), {});
    res := if indexed.Ok? then Ok((claims, id)) else Err(StoreError);
  }

  /** An access token and the first refresh token of a new family. */
  method GenerateTokenPair(store: RedisClient, plan: Plan, keyOk: bool, signOk: bool, family: Id, jti: Id, id: Id, ghost r: nat)
    returns (res: Result<(TokenClaims, Id), JwtError>)
    requires store.Valid() && r !in store.State().reqs && store.Unused({family, jti, id})
    requires family != jti && family != id && jti != id
    modifies store
    ensures old(store.events) <= store.events && old(store.sent) <= store.sent
    ensures store.Valid() && r in store.State().reqs && store.State().reqs[r].Done? && Answers(store.State().reqs[r].outcome, res)
    ensures res.Ok? ==> store.sent == old(store.sent) + 10
    ensures res.Ok? ==> Fulfils(store.cfg, plan, res.value.0, jti) && res.value.1 == id
    ensures IssueError(store.cfg, plan, keyOk, signOk, store.Clean(old(store.sent)),
                       FailsCheck(store.cfg, store.events, |old(store.events)|, r), ErrorOf(res))
  {
    Open(store, r, IssuePair(plan), family, {jti, id});
    ghost var from := |store.events|;
    res := IssueBoth(store, plan.(family := Some(family)), keyOk, signOk, family, jti, id, r);
    if FailsCheck(store.cfg, store.events, from, r) {
      FailsCheckLater(store.cfg, store.events, store.events, |old(store.events)|, from, r);
    }
  }

  /** An access token, and a refresh token in its family. */
  method IssueBoth(store: RedisClient, plan: Plan, keyOk: bool, signOk: bool, family: Id, jti: Id, id: Id, ghost r: nat)
    returns (res: Result<(TokenClaims, Id), JwtError>)
    requires store.Serves(r, Build(plan)) && plan.family == Some(family)
    requires store.Unused({jti, id}) && jti != id
    modifies store
    ensures old(store.events) <= store.events && old(store.sent) <= store.sent
    ensures res.Ok? ==> store.Serves(r, Done(Paired(res.value.0, res.value.1)))
    ensures res.Ok? ==> store.sent == old(store.sent) + 10
    ensures res.Ok? ==> Fulfils(store.cfg, plan, res.value.0, jti) && res.value.1 == id
    ensures res.Err? ==> res.error != NotValid && store.Serves(r, Done(Rejected(res.error)))
    ensures IssueError(store.cfg, plan, keyOk, signOk, store.Clean(old(store.sent)),
                       FailsCheck(store.cfg, store.events, |old(store.events)|, r), ErrorOf(res))
  {
    var access;
    ghost var ttl;
    access, ttl := GenerateToken(store, plan, keyOk, signOk, jti, r, {id});
    if access.Err? { return Err(access.error); }
    ghost var middle := store.sent;
    store.Interfere(r, Link(FamAdd, Job(access.value, ttl), family, "", 0), {id});
    res := IssueRefresh(store, access.value, family, id, r, ttl);
    AllMetSplit(store.fault, old(store.sent), middle, store.sent);
  }

  /** What a call found out about a refresh token: what its HGETALL read and what its HSETNX answered, as far as it
    * got to them. */
  datatype Finding = Finding(read: Option<Option<RefreshRecord>>, won: Option<bool>)

  /** The finding comes from events of request `r` in this part of the run. */
  ghost predicate Found(cfg: Config, es: seq<Event>, from: nat, r: nat, token: Id, finding: Finding) {
    && (finding.read.Some? ==> exists at: nat :: from <= at && ReadAt(cfg, es, at, r, token, finding.read.value))
    && (finding.won.Some? ==> exists at: nat :: from <= at && MarkedAt(cfg, es, at, r, token, finding.won.value))
  }

  lemma ReadKept(cfg: Config, es: seq<Event>, later: seq<Event>, at: nat, r: nat, token: Id, found: Option<RefreshRecord>)
    requires es <= later && ReadAt(cfg, es, at, r, token, found)
    ensures ReadAt(cfg, later, at, r, token, found)
  {
    assert later[..at] == es[..at];
  }

  lemma MarkedKept(cfg: Config, es: seq<Event>, later: seq<Event>, at: nat, r: nat, token: Id, won: bool)
    requires es <= later && MarkedAt(cfg, es, at, r, token, won)
    ensures MarkedAt(cfg, later, at, r, token, won)
  {
    assert later[..at] == es[..at];
  }

  /** A finding stays true as the run goes on. */
  lemma FoundLater(cfg: Config, es: seq<Event>, later: seq<Event>, since: nat, from: nat, r: nat, token: Id, finding: Finding)
    requires Found(cfg, es, from, r, token, finding) && es <= later && since <= from
    ensures Found(cfg, later, since, r, token, finding)
  {
    if finding.read.Some? {
      var at: nat :| from <= at && ReadAt(cfg, es, at, r, token, finding.read.value);
      ReadKept(cfg, es, later, at, r, token, finding.read.value);
    }
    if finding.won.Some? {
      var at: nat :| from <= at && MarkedAt(cfg, es, at, r, token, finding.won.value);
      MarkedKept(cfg, es, later, at, r, token, finding.won.value);
    }
  }

  function Renewal(record: RefreshRecord, issuer: string): Plan {
    Plan(issuer, record.subject, record.audience, None, [], Some(record.family))
  }

  /** Rotation, and the reuse detector. `finding` is what the call read and marked; `killed` is the family and where in
    * the run its index was read, when the detector went off. Unless the store failed, every token is looked up, every
    * record found is marked, and every mark that was set before kills the family; `NotValid` is the answer exactly
    * to a token without a record and to one whose family was killed. The winner of the mark ends as an issue does. */
  method RefreshTokenPair(store: RedisClient, token: Id, issuer: string, keyOk: bool, signOk: bool, jti: Id, id: Id, ghost r: nat)
    returns (res: Result<(TokenClaims, Id), JwtError>, ghost finding: Finding, ghost killed: Option<(Id, nat)>)
    requires store.Valid() && r !in store.State().reqs && store.Unused({jti, id}) && jti != id && token != jti && token != id
    requires Guessed(store.State(), Exchange(token, issuer))
    modifies store
    ensures old(store.events) <= store.events && old(store.sent) <= store.sent
    ensures store.Valid() && r in store.State().reqs && store.State().reqs[r].Done? && Answers(store.State().reqs[r].outcome, res)
    ensures Found(store.cfg, store.events, |old(store.events)|, r, token, finding)
    ensures res != Err(StoreError) ==> finding.read.Some? && (finding.read.value.Some? ==> finding.won.Some?)
    ensures res != Err(StoreError) && finding.won == Some(false) ==> killed.Some?
    ensures res == Err(NotValid) <==> finding.read == Some(None) || killed.Some?
    ensures finding.won.Some? ==> finding.read.Some? && finding.read.value.Some?
    ensures finding.won == Some(true) ==>
              IssueError(store.cfg, Renewal(finding.read.value.value, issuer), keyOk, signOk, store.Clean(old(store.sent)),
                         FailsCheck(store.cfg, store.events, |old(store.events)|, r), ErrorOf(res))
    ensures finding.won != Some(true) ==> res.Err? && (res == Err(StoreError) <==> !store.Clean(old(store.sent)))
                                          && (res == Err(StoreError) || res == Err(NotValid))
    ensures res.Ok? ==> finding.won == Some(true) && var (claims, record) := (res.value.0, finding.read.value.value);
              claims.iss == issuer && claims.sub == record.subject && claims.aud == record.audience && claims.extra == []
    ensures res.Ok? ==> Fulfils(store.cfg, Renewal(finding.read.value.value, issuer), res.value.0, jti) && res.value.1 == id
    ensures killed.Some? ==> finding.won == Some(false) && finding.read.Some? && finding.read.value.Some?
                             && killed.value.0 == finding.read.value.value.family
    ensures killed.Some? ==> FamilyKilled(store.cfg, store.events, r, killed.value)
  {
    killed := None;
    ghost var before := |store.events|;
    var redeemed;
    redeemed, finding := Present(store, token, issuer, r, {jti, id});
    if redeemed.Err? { return Err(redeemed.error), finding, killed; }
    var (record, won) := redeemed.value;
    ghost var presented, middle := store.events, store.sent;
    res, killed := Conclude(store, record, won, issuer, keyOk, signOk, jti, id, r);
    FoundLater(store.cfg, presented, store.events, before, before, r, token, finding);
    AllMetSplit(store.fault, old(store.sent), middle, store.sent);
    if FailsCheck(store.cfg, store.events, |presented|, r) {
      FailsCheckLater(store.cfg, store.events, store.events, before, |presented|, r);
    }
  }

  /** After the mark: the winner rotates, a loser has detected reuse. */
  method Conclude(store: RedisClient, record: RefreshRecord, won: bool, issuer: string, keyOk: bool, signOk: bool,
                  jti: Id, id: Id, ghost r: nat)
    returns (res: Result<(TokenClaims, Id), JwtError>, ghost killed: Option<(Id, nat)>)
    requires store.Serves(r, AfterMark(record, issuer, won)) && store.Unused({jti, id}) && jti != id
    modifies store
    ensures old(store.events) <= store.events && old(store.sent) <= store.sent
    ensures store.Valid() && r in store.State().reqs && store.State().reqs[r].Done? && Answers(store.State().reqs[r].outcome, res)
    ensures res.Ok? ==> Fulfils(store.cfg, Renewal(record, issuer), res.value.0, jti) && res.value.1 == id
    ensures killed.Some? ==> !won && killed.value.0 == record.family
    ensures killed.Some? <==> res == Err(NotValid)
    ensures !won ==> (if store.Clean(old(store.sent)) then killed.Some? else res == Err(StoreError))
    ensures won ==> IssueError(store.cfg, Renewal(record, issuer), keyOk, signOk, store.Clean(old(store.sent)),
                               FailsCheck(store.cfg, store.events, |old(store.events)|, r), ErrorOf(res))
    ensures killed.Some? ==> FamilyKilled(store.cfg, store.events, r, killed.value)
  {
    killed := None;
    if !won {
      res, killed := KillFamily(store, record.family, r);
    } else {
      res := Rotate(store, record, issuer, keyOk, signOk, jti, id, r);
    }
  }

  method OpenExchange(store: RedisClient, token: Id, issuer: string, ghost r: nat, ghost spare: set<Id>)
    requires store.Valid() && r !in store.State().reqs && store.Unused(spare) && token !in spare
    requires Guessed(store.State(), Exchange(token, issuer))
    modifies store
    ensures old(store.events) <= store.events && store.Unused(spare) && store.Serves(r, GetRec(token, issuer))
    ensures store.sent == old(store.sent)
  {
    Open(store, r, Exchange(token, issuer), FreshId({token} + spare + store.State().hist.ids), spare);
    store.Interfere(r, GetRec(token, issuer), spare);
  }

  /** An exchange begins. */
  method Present(store: RedisClient, token: Id, issuer: string, ghost r: nat, ghost spare: set<Id>)
    returns (res: Result<(RefreshRecord, bool), JwtError>, ghost finding: Finding)
    requires store.Valid() && r !in store.State().reqs && store.Unused(spare) && token !in spare
    requires Guessed(store.State(), Exchange(token, issuer))
    modifies store
    ensures old(store.events) <= store.events && store.Unused(spare)
    ensures old(store.sent) <= store.sent && (res == Err(StoreError) <==> !store.Clean(old(store.sent)))
    ensures res.Ok? ==> store.Serves(r, AfterMark(res.value.0, issuer, res.value.1))
    ensures res.Err? ==> store.Serves(r, Done(Rejected(res.error)))
    ensures Found(store.cfg, store.events, |old(store.events)|, r, token, finding) && Redeemed(finding, res)
  {
    ghost var before := |store.events|;
    OpenExchange(store, token, issuer, r, spare);
    ghost var entered := |store.events|;
    res, finding := Redeem(store, token, issuer, r, spare);
    FoundLater(store.cfg, store.events, store.events, before, entered, r, token, finding);
  }

  /** How the answer of the first half of an exchange follows from what it found. */
  predicate Redeemed(finding: Finding, res: Result<(RefreshRecord, bool), JwtError>) {
    match res
    case Ok((record, won)) => finding == Finding(Some(Some(record)), Some(won))
    case Err(error) => finding.won == None && error == if finding.read == Some(None) then NotValid else StoreError
  }

  /** Reads the record of a presented refresh token and marks it used; says whether this call set the mark. */
  method Redeem(store: RedisClient, token: Id, issuer: string, ghost r: nat, ghost spare: set<Id>)
    returns (res: Result<(RefreshRecord, bool), JwtError>, ghost finding: Finding)
    requires store.Serves(r, GetRec(token, issuer)) && store.Unused(spare)
    modifies store
    ensures old(store.events) <= store.events && store.Unused(spare)
    ensures old(store.sent) <= store.sent && (res == Err(StoreError) <==> !store.Clean(old(store.sent)))
    ensures res.Ok? ==> store.Serves(r, AfterMark(res.value.0, issuer, res.value.1))
    ensures res.Err? ==> store.Serves(r, Done(Rejected(res.error)))
    ensures Found(store.cfg, store.events, |old(store.events)|, r, token, finding) && Redeemed(finding, res)
  {
    ghost var before := |store.events|;
    finding := Finding(None, None);
    var found := store.GetRefresh(token, issuer, r, spare);
    ghost var middle := store.sent;
    if found.Err? { return Err(StoreError), finding; }
    finding := Finding(Some(found.value), None);
    if found.value.None? { return Err(NotValid), finding; }
    var record := found.value.value;
    ghost var read := store.events;
    store.Interfere(r, Mark(token, record, issuer), spare);
    var marked := store.MarkRefreshUsed(token, record, issuer, r, spare);
    AllMetSplit(store.fault, old(store.sent), middle, store.sent);
    ReadKept(store.cfg, read, store.events, before, r, token, Some(record));
    if marked.Err? { return Err(StoreError), finding; }
    finding := finding.(won := Some(marked.value));
    res := Ok((record, marked.value));
  }

  /** The reuse detector's answer. */
  method KillFamily(store: RedisClient, family: Id, ghost r: nat)
    returns (res: Result<(TokenClaims, Id), JwtError>, ghost killed: Option<(Id, nat)>)
    requires store.Serves(r, Sweep(CutStamp, FamilyGroup(family), 0, {}))
    modifies store
    ensures old(store.events) <= store.events && old(store.sent) <= store.sent && (killed.Some? <==> store.Clean(old(store.sent)))
    ensures res.Err? && store.Serves(r, Done(Rejected(res.error)))
    ensures if killed.Some? then res.error == NotValid else res.error == StoreError
    ensures killed.Some? ==> killed.value.0 == family && FamilyKilled(store.cfg, store.events, r, killed.value)
  {
    killed := None;
    store.Interfere(r, Sweep(CutStamp, FamilyGroup(family), 0, {}), {});
    var revoked;
    ghost var at;
    revoked, at := store.RevokeGroup(FamilyGroup(family), r);
    if revoked.Err? { return Err(StoreError), killed; }
    killed := Some((family, at));
    res := Err(NotValid);
    Killed(store.cfg, store.events, at, r, FamilyGroup(family), revoked.value);
  }

  /** Request `r` swept the family at that event of the run, and what it reached is dead. */
  ghost predicate FamilyKilled(cfg: Config, es: seq<Event>, r: nat, killed: (Id, nat)) {
    (exists n :: SweptBy(cfg, es, killed.1, r, FamilyGroup(killed.0), n)) && KilledGroup(cfg, es, killed.1, FamilyGroup(killed.0))
  }

  /** `m` was entered before the ZRANGE, into a group that is unflawed or has been there ever since. */
  ghost predicate Reached(cfg: Config, es: seq<Event>, at: nat, g: GroupKey, m: Key)
    requires at <= |es|
  {
    Registered(StateAt(cfg, es, at), g, m)
    || ((g, m) in StateAt(cfg, es, at).hist.regs && IndexKept(cfg, es[..at], g, m))
  }

  /** Everything the ZRANGE saw is dead; so is every member it did not see if the group is unflawed or was never lost
    * since the member's entry, up to the last second of a refresh record. */
  ghost predicate KilledGroup(cfg: Config, es: seq<Event>, at: nat, g: GroupKey) {
    && at <= |es|
    && (forall m :: m in ZRange(StateAt(cfg, es, at).db, g) ==> Dead(Run(cfg, es), m))
    && forall m :: Reached(cfg, es, at, g, m) ==>
         Dead(Run(cfg, es), m) || (m.RefreshKey? && InLastSecond(StateAt(cfg, es, at), Run(cfg, es), g, m))
  }

  lemma Killed(cfg: Config, es: seq<Event>, at: nat, r: nat, g: GroupKey, count: nat)
    requires Legal(cfg, es) && SweptBy(cfg, es, at, r, g, count)
    ensures KilledGroup(cfg, es, at, g)
  {
    assert es[..|es|] == es;
    forall m | m in ZRange(StateAt(cfg, es, at).db, g) ensures Dead(Run(cfg, es), m) {
      SeenMembersDie(cfg, es, at, |es|, |es|, r, g, m);
    }
    forall m | Reached(cfg, es, at, g, m)
      ensures Dead(Run(cfg, es), m) || (m.RefreshKey? && InLastSecond(StateAt(cfg, es, at), Run(cfg, es), g, m))
    {
      if Registered(StateAt(cfg, es, at), g, m) {
        RevocationIsFinal(cfg, es, at, |es|, |es|, r, g, m);
      } else {
        KeptMembersDie(cfg, es, at, |es|, |es|, r, g, m);
      }
    }
  }

  /** The new pair of an exchange; custom claims are not carried over and the default lifetime applies. */
  method Rotate(store: RedisClient, record: RefreshRecord, issuer: string, keyOk: bool, signOk: bool, jti: Id, id: Id, ghost r: nat)
    returns (res: Result<(TokenClaims, Id), JwtError>)
    requires store.Serves(r, Build(Renewal(record, issuer)))
    requires store.Unused({jti, id}) && jti != id
    modifies store
    ensures old(store.events) <= store.events && old(store.sent) <= store.sent
    ensures res.Ok? ==> store.Serves(r, Done(Paired(res.value.0, res.value.1)))
    ensures res.Ok? ==> store.sent == old(store.sent) + 10
    ensures res.Ok? ==> Fulfils(store.cfg, Renewal(record, issuer), res.value.0, jti) && res.value.1 == id
    ensures res.Err? ==> res.error != NotValid && store.Serves(r, Done(Rejected(res.error)))
    ensures IssueError(store.cfg, Renewal(record, issuer), keyOk, signOk, store.Clean(old(store.sent)),
                       FailsCheck(store.cfg, store.events, |old(store.events)|, r), ErrorOf(res))
  {
    store.Interfere(r, Build(Renewal(record, issuer)), {jti, id});
    ghost var from := |store.events|;
    res := IssueBoth(store, Renewal(record, issuer), keyOk, signOk, record.family, jti, id, r);
    if FailsCheck(store.cfg, store.events, from, r) {
      FailsCheckLater(store.cfg, store.events, store.events, |old(store.events)|, from, r);
    }
  }

  /** A request that draws no UUID enters, and others go on. */
  method OpenAlone(store: RedisClient, ghost r: nat, ghost op: Op)
    requires store.Valid() && r !in store.State().reqs && (op.RevokeSubject? || op.Revoke?)
    modifies store
    ensures old(store.events) <= store.events && store.Serves(r, First(op, "")) && store.sent == old(store.sent)
  {
    Open(store, r, op, FreshId(store.State().hist.ids), {});
    store.Interfere(r, First(op, ""), {});
  }

  /** Revokes every token of a subject and returns how many index entries that took. */
  method RevokeSubjectTokens(store: RedisClient, subject: string, ghost r: nat)
    returns (res: Result<nat, JtiError>, ghost at: nat)
    requires store.Valid() && r !in store.State().reqs
    modifies store
    ensures old(store.events) <= store.events && store.Valid() && (res.Ok? <==> store.Clean(old(store.sent)))
    ensures res.Ok? ==> SweptBy(store.cfg, store.events, at, r, SubjectGroup(subject), res.value)
    ensures res.Ok? ==> KilledGroup(store.cfg, store.events, at, SubjectGroup(subject))
  {
    OpenAlone(store, r, RevokeSubject(subject));
    res, at := store.RevokeGroup(SubjectGroup(subject), r);
    if res.Ok? { Killed(store.cfg, store.events, at, r, SubjectGroup(subject), res.value); }
  }

  /** Revokes one token; from then on it never verifies. */
  method RevokeToken(store: RedisClient, jti: Id, ghost r: nat) returns (res: Result<(), JtiError>)
    requires store.Valid() && r !in store.State().reqs
    modifies store
    ensures old(store.events) <= store.events && store.Valid() && (res.Ok? <==> store.Clean(old(store.sent)))
    ensures res.Ok? ==> Refused(store.State(), jti) && WasDeleted(store.cfg, store.events, JtiKey(jti))
  {
    OpenAlone(store, r, Revoke(JtiKey(jti)));
    res := store.DeleteJti(JtiKey(jti), r);
    if res.Ok? {
      DeletedRefused(store.cfg, store.events, jti);
    }
  }

  lemma DeletedRefused(cfg: Config, es: seq<Event>, jti: Id)
    requires Legal(cfg, es) && JtiKey(jti) in Run(cfg, es).hist.removed
    ensures Refused(Run(cfg, es), jti) && WasDeleted(cfg, es, JtiKey(jti))
  {
    assert es[..|es|] == es;
    RemovedMeansDeleted(cfg, es, JtiKey(jti));
    RemovedDead(cfg, es, |es|, JtiKey(jti));
  }

  /** `is_verify`: the claims are checked at one instant and the `jti` is looked up at a later one. The
    * claims may come from any token text; for those of a token that was handed out the answer means more. */
  method VerifyToken(store: RedisClient, claims: TokenClaims, issuer: string, audience: string) returns (ok: bool, failed: bool)
    requires store.Valid()
    modifies store
    ensures store.Valid() && old(store.events) <= store.events
    ensures failed <==> ClaimsValid(claims, issuer, audience, old(store.clock)) && !store.Clean(old(store.sent))
    ensures ok ==> ClaimsValid(claims, issuer, audience, old(store.clock)) && claims.jti in store.db.jtis
    ensures !ok && !failed ==> !ClaimsValid(claims, issuer, audience, old(store.clock)) || claims.jti !in store.db.jtis
    ensures ok && HandedOut(old(store.State()), claims) ==> !WasDeleted(store.cfg, store.events, JtiKey(claims.jti))
    ensures !ok && !failed && HandedOut(old(store.State()), claims) ==> !Verifies(store.db, claims, issuer, audience, store.clock)
  {
    failed := false;
    ghost var before := store.events;
    var valid := ClaimsValid(claims, issuer, audience, store.clock);
    store.Pause();
    assert store.events[..|before|] == before;
    if HandedOut(StateAt(store.cfg, store.events, |before|), claims) {
      VerifiedLater(store.cfg, store.events, |before|, claims, issuer, audience);
    }
    if !valid { return false, failed; }
    var found := store.CheckJti(claims.jti);
    failed := found.Err?;
    ok := found.Ok? && found.value;
  }

  /** A claim check that fails now fails later, and a `jti` found later was not deleted before. */
  lemma VerifiedLater(cfg: Config, es: seq<Event>, n: nat, claims: TokenClaims, issuer: string, audience: string)
    requires Legal(cfg, es) && n <= |es| && HandedOut(StateAt(cfg, es, n), claims)
    ensures !ClaimsValid(claims, issuer, audience, StateAt(cfg, es, n).now) ==>
              !ClaimsValid(claims, issuer, audience, Run(cfg, es).now)
    ensures claims.jti in Run(cfg, es).db.jtis ==> !WasDeleted(cfg, es, JtiKey(claims.jti))
  {
    assert es[..|es|] == es;
    HandedToken(cfg, es, n, claims);
    History(cfg, es, n, |es|);
    TokenAt(cfg, es, n, claims.jti);
    TokenAt(cfg, es, |es|, claims.jti);
    RemovedMeansDeleted(cfg, es, JtiKey(claims.jti));
    assert Secs(StateAt(cfg, es, n).now) <= Secs(Run(cfg, es).now);
  }
}
