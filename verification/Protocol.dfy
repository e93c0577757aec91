/** The token service as a step machine: any number of requests, interleaved one Redis
  * command at a time, over one store and one clock.
  *
  * A request is a program counter `Pc` naming the command it sends next. An aborted
  * request models a failed command; `Exec` followed by `Abort` is a command that took
  * effect but whose answer was lost. `Hist` is bookkeeping for the theorems and never
  * steers a step.
  */
module Protocol {
  import opened Common
  import opened Redis
  import opened Claims

  /** What an issue is asked for; `family` is set when a refresh token goes with it. */
  datatype Plan = Plan(
    issuer: string, subject: string, audience: seq<string>, ttl: Option<nat>, extra: seq<Field>,
    family: Option<Id>)

  /** An access token whose `jti` is in the store but which is not handed out yet. */
  datatype Job = Job(claims: TokenClaims, ttl: nat)

  datatype Outcome =
    | Issued(claims: TokenClaims)
    | Paired(access: TokenClaims, refresh: Id)
    | Revoked(count: nat)
    | Deleted
    | Rejected(error: JwtError)

  /** Entering an access token into its subject group. */
  datatype EnrolStep = SubjAdd | SubjTtl | SelfCheck      // ZADD, EXPIREAT, EXISTS jti

  /** Entering a pair into its family group and storing the refresh record. */
  datatype LinkStep =
    | FamAdd | FamTtl                                     // ZADD, EXPIREAT: access token
    | PutRec | RecTtl                                     // HSET, EXPIRE: refresh record
    | Stamp                                               // clock
    | IdxAdd | IdxTtl                                     // ZADD, EXPIREAT: refresh token

  /** Revoking a group. */
  datatype SweepStep = CutStamp | Cut | Range | DelMembers | DelGroup // clock, ZREMRANGEBYSCORE, ZRANGE, DEL, DEL

  /** The command a request sends next. The last fields of `Link` and `Sweep` are filled in on the way. */
  datatype Pc =
    | GetRec(id: Id, issuer: string)                      // HGETALL refresh
    | Mark(id: Id, rec: RefreshRecord, issuer: string)    // HSETNX used
    | Build(plan: Plan)                                   // signing key, claims, clock
    | PutJti(draft: TokenClaims, ttl: nat, family: Option<Id>) // SETEX jti
    | Enrol(enrol: EnrolStep, job: Job, family: Option<Id>)
    | Link(link: LinkStep, job: Job, f: Id, rid: Id, rexp: nat)
    | Sweep(sweep: SweepStep, g: GroupKey, cutoff: nat, members: set<Key>)
    | DelOne(key: Key)                                    // DEL jti
    | Done(outcome: Outcome)

  /** What a client may ask for. */
  datatype Op =
    | Issue(plan: Plan)
    | IssuePair(plan: Plan)
    | Exchange(id: Id, issuer: string)
    | RevokeSubject(subject: string)
    | Revoke(key: Key)

  datatype Hist = Hist(
    ids: set<Id>,                    // every identifier drawn by the service or named by a client
    handed: set<Id>,                 // refresh tokens handed out, and identifiers clients made up
    tokens: map<Id, TokenClaims>,    // claims whose jti was written
    removed: set<Key>,               // keys a DEL named
    regs: map<(GroupKey, Key), nat>, // every ZADD: the group, the member, its score
    flawed: set<GroupKey>)           // groups whose index may have lost a live member (see Flaws)

  datatype Sys = Sys(db: Db, now: nat, reqs: map<nat, Pc>, hist: Hist)

  datatype Event =
    | Tick(millis: nat)
    | Begin(r: nat, op: Op, uuid: Id)
    | Exec(r: nat, uuid: Id)
    | Abort(r: nat, error: JwtError)

  const INIT := Sys(EMPTY_DB, 0, map[], Hist({}, {}, map[], {}, map[], {}))

  function First(op: Op, uuid: Id): Pc {
    match op
    case Issue(plan) => Build(plan.(family := None))
    case IssuePair(plan) => Build(plan.(family := Some(uuid)))
    case Exchange(id, issuer) => GetRec(id, issuer)
    case RevokeSubject(subject) => Sweep(CutStamp, SubjectGroup(subject), 0, {})
    case Revoke(key) => DelOne(key)
  }

  /** The command a request sends. `uuid` is the one the step draws, if it draws one. */
  function Command(cfg: Config, pc: Pc, uuid: Id): Cmd {
    match pc
    case Mark(id, _, _) => CmdHSetNx(id)
    case PutJti(_, ttl, _) => if ttl == 0 then NoCmd else CmdSetEx(uuid, ttl)
    case Enrol(step, job, _) => EnrolCommand(step, job)
    case Link(step, job, f, rid, rexp) => LinkCommand(cfg, step, job, f, rid, rexp, uuid)
    case Sweep(step, g, cutoff, members) => SweepCommand(step, g, cutoff, members)
    case DelOne(key) => CmdDel({key})
    case _ => NoCmd
  }

  function EnrolCommand(step: EnrolStep, job: Job): Cmd {
    var g := SubjectGroup(job.claims.sub);
    match step
    case SubjAdd => CmdZAdd(g, JtiKey(job.claims.jti), job.claims.exp)
    case SubjTtl => CmdExpireAt(g, job.claims.exp)
    case SelfCheck => NoCmd
  }

  function LinkCommand(cfg: Config, step: LinkStep, job: Job, f: Id, rid: Id, rexp: nat, uuid: Id): Cmd {
    match step
    case FamAdd => CmdZAdd(FamilyGroup(f), JtiKey(job.claims.jti), job.claims.exp)
    case FamTtl => CmdExpireAt(FamilyGroup(f), job.claims.exp)
    case PutRec => CmdHSet(uuid, RefreshRecord(job.claims.sub, job.claims.aud, f))
    case RecTtl => CmdHExpire(rid, cfg.refreshTtl)
    case Stamp => NoCmd
    case IdxAdd => CmdZAdd(FamilyGroup(f), RefreshKey(rid), rexp)
    case IdxTtl => CmdExpireAt(FamilyGroup(f), rexp)
  }

  function SweepCommand(step: SweepStep, g: GroupKey, cutoff: nat, members: set<Key>): Cmd {
    match step
    case Cut => CmdZCut(g, cutoff)
    case DelMembers => CmdDel(members)
    case DelGroup => CmdDel({GroupName(g)})
    case _ => NoCmd
  }

  /** Where a request goes once its command succeeded; `db` is the store the command found. */
  function Next(cfg: Config, pc: Pc, db: Db, now: nat, uuid: Id): Pc {
    match pc
    case GetRec(id, issuer) =>
      (match HGetAll(db, id)
       case None => Done(Rejected(NotValid))
       case Some(rec) => Mark(id, rec, issuer))
    case Mark(id, rec, issuer) =>
      if HSetNxWins(db, id)
      then Build(Plan(issuer, rec.subject, rec.audience, None, [], Some(rec.family)))
      else Sweep(CutStamp, FamilyGroup(rec.family), 0, {})
    case Build(plan) =>
      (match Draft(cfg, plan.issuer, plan.subject, plan.audience, plan.ttl, plan.extra, now)
       case None => Done(Rejected(UnprocessableEntity))
       case Some((draft, ttl)) => PutJti(draft, ttl, plan.family))
    case PutJti(draft, ttl, family) =>
      if ttl == 0 then Done(Rejected(StoreError)) else Enrol(SubjAdd, Job(draft.(jti := uuid), ttl), family)
    case Enrol(step, job, family) => EnrolNext(step, job, family, db, now)
    case Link(step, job, f, rid, rexp) => LinkNext(cfg, step, job, f, rid, rexp, now, uuid)
    case Sweep(step, g, cutoff, members) => SweepNext(step, g, cutoff, members, db, now)
    case DelOne(_) => Done(Deleted)
    case Done(_) => pc
  }

  function EnrolNext(step: EnrolStep, job: Job, family: Option<Id>, db: Db, now: nat): Pc {
    match step
    case SubjAdd => Enrol(SubjTtl, job, family)
    case SubjTtl => Enrol(SelfCheck, job, family)
    case SelfCheck =>
      if job.claims.aud != [] && Verifies(db, job.claims, job.claims.iss, job.claims.aud[0], now)
      then (match family case None => Done(Issued(job.claims)) case Some(f) => Link(FamAdd, job, f, "", 0))
      else Done(Rejected(StoreError))
  }

  function LinkNext(cfg: Config, step: LinkStep, job: Job, f: Id, rid: Id, rexp: nat, now: nat, uuid: Id): Pc {
    match step
    case FamAdd => Link(FamTtl, job, f, rid, rexp)
    case FamTtl => Link(PutRec, job, f, rid, rexp)
    case PutRec => Link(RecTtl, job, f, uuid, rexp)
    case RecTtl => Link(Stamp, job, f, rid, rexp)
    case Stamp => Link(IdxAdd, job, f, rid, Secs(now) + cfg.refreshTtl)
    case IdxAdd => Link(IdxTtl, job, f, rid, rexp)
    case IdxTtl => Done(Paired(job.claims, rid))
  }

  function SweepNext(step: SweepStep, g: GroupKey, cutoff: nat, members: set<Key>, db: Db, now: nat): Pc {
    match step
    case CutStamp => Sweep(Cut, g, Secs(now), members)
    case Cut => Sweep(Range, g, cutoff, members)
    case Range => var ms := ZRange(db, g); Sweep(if ms == {} then DelGroup else DelMembers, g, cutoff, ms)
    case DelMembers => Sweep(DelGroup, g, cutoff, members)
    case DelGroup => Done(if g.FamilyGroup? then Rejected(NotValid) else Revoked(|members|))
  }

  /** The group whose TTL a request has opened and not settled yet: between its first ZADD
    * and the EXPIREAT that makes the group outlive all its members again. */
  function Window(pc: Pc): Option<GroupKey> {
    if pc.Enrol? && pc.enrol.SubjTtl? then Some(SubjectGroup(pc.job.claims.sub))
    else if pc.Link? && !pc.link.FamAdd? then Some(FamilyGroup(pc.f))
    else None
  }

  function Opened(pc: Pc): set<GroupKey> {
    match Window(pc)
    case None => {}
    case Some(g) => {g}
  }

  /** The family a request is about to issue a refresh token into. */
  function Issuing(pc: Pc): Option<Id> {
    match pc
    case Build(plan) => plan.family
    case PutJti(_, _, family) => family
    case Enrol(_, _, family) => family
    case Link(_, _, f, _, _) => Some(f)
    case _ => None
  }

  /** The ways a command can cost a group its claim to index every live member:
    * a used mark put on a record that vanished after it was read; an EXPIREAT on a subject
    * group below the expiry of a stored token already in it; an access token that outlives the
    * refresh token of its pair; an access token that expired before its pair was complete;
    * a member added between the ZRANGE and the DEL of a revocation; a client deleting the
    * group key itself.
    */
  ghost function Flaws(cfg: Config, s: Sys, pc: Pc): set<GroupKey> {
    match pc
    case Mark(id, rec, _) => if id in s.db.hashes then {} else {FamilyGroup(rec.family)}
    case Enrol(SubjTtl, job, _) =>
      var g := SubjectGroup(job.claims.sub);
      if exists j :: (g, JtiKey(j)) in s.hist.regs && j in s.db.jtis && job.claims.exp < s.hist.regs[(g, JtiKey(j))] then {g} else {}
    case Link(FamAdd, job, f, _, _) => if cfg.refreshTtl < job.ttl then {FamilyGroup(f)} else {}
    case Link(FamTtl, job, f, _, _) => if job.claims.exp * MILLIS <= s.now then {FamilyGroup(f)} else {}
    case Sweep(DelGroup, g, _, members) => if ZRange(s.db, g) <= members then {} else {g}
    case DelOne(key) => if key.GroupName? then {key.group} else {}
    case _ => {}
  }

  /** The bookkeeping of one executed command. */
  ghost function Record(cfg: Config, s: Sys, pc: Pc, uuid: Id): Hist {
    var h := Note(s.hist, Command(cfg, pc, uuid), if pc.PutJti? then pc.draft else NO_CLAIMS);
    h.(flawed := h.flawed + Flaws(cfg, s, pc), handed := if pc.Link? && pc.link.IdxTtl? then h.handed + {pc.rid} else h.handed)
  }

  const NO_CLAIMS := TokenClaims("", "", [], 0, 0, 0, "", [])

  ghost function Note(h: Hist, cmd: Cmd, draft: TokenClaims): Hist {
    match cmd
    case CmdSetEx(j, _) => h.(ids := h.ids + {j}, tokens := h.tokens[j := draft.(jti := j)])
    case CmdHSet(id, _) => h.(ids := h.ids + {id})
    case CmdZAdd(g, m, score) => h.(regs := h.regs[(g, m) := score])
    case CmdDel(keys) => h.(removed := h.removed + keys, ids := h.ids + Names(keys))
    case _ => h
  }

  function Names(keys: set<Key>): set<Id> {
    (set k | k in keys && k.JtiKey? :: k.jti) + (set k | k in keys && k.RefreshKey? :: k.id)
  }

  /** The identifiers a new request brings in, and whether they count as known to clients. */
  function Named(op: Op): set<Id> {
    if op.Exchange? then {op.id} else {}
  }

  ghost function Step(cfg: Config, s: Sys, e: Event): Sys {
    match e
    case Tick(d) => Elapse(s, d)
    case Begin(r, op, uuid) =>
      s.(reqs := s.reqs[r := First(op, uuid)],
         hist := s.hist.(ids := s.hist.ids + Named(op) + (if op.IssuePair? then {uuid} else {}),
                         handed := s.hist.handed + Named(op)))
    case Exec(r, uuid) => if r in s.reqs then Execute(cfg, s, r, uuid) else s
    case Abort(r, error) => if r in s.reqs then GiveUp(s, r, error) else s
  }

  /** Time passes and keys expire. A group that lapses while a request has its TTL open is flawed. */
  ghost function Elapse(s: Sys, d: nat): Sys {
    var now := s.now + d;
    Sys(Expire(s.db, now), now, s.reqs, s.hist.(flawed := s.hist.flawed + Lapsed(s, now)))
  }

  ghost function Lapsed(s: Sys, now: nat): set<GroupKey> {
    set g | g in s.db.groups && s.db.groups[g].deadline.Passed(now) && exists r :: r in s.reqs && Window(s.reqs[r]) == Some(g)
  }

  ghost function Execute(cfg: Config, s: Sys, r: nat, uuid: Id): Sys
    requires r in s.reqs
  {
    var pc := s.reqs[r];
    Sys(Apply(Command(cfg, pc, uuid), s.db, s.now), s.now, s.reqs[r := Next(cfg, pc, s.db, s.now, uuid)],
        Record(cfg, s, pc, uuid))
  }

  /** A request ends with an error; stopping inside a TTL window flaws that group. */
  ghost function GiveUp(s: Sys, r: nat, error: JwtError): Sys
    requires r in s.reqs
  {
    s.(reqs := s.reqs[r := Done(Rejected(error))],
       hist := s.hist.(flawed := s.hist.flawed + Opened(s.reqs[r])))
  }

  /** A step is possible: UUIDs are fresh, and a refresh token nobody was given cannot be guessed. */
  ghost predicate Enabled(s: Sys, e: Event) {
    match e
    case Tick(_) => true
    case Begin(r, op, uuid) =>
      r !in s.reqs && uuid !in s.hist.ids && uuid !in Named(op)
      && (forall id :: id in Named(op) && id in s.hist.ids ==> id in s.hist.handed)
    case Exec(r, uuid) => r in s.reqs && uuid !in s.hist.ids
    case Abort(r, error) => r in s.reqs && Failure(error)
  }

  /** The errors a failed call ends a request with; the others are answers. */
  predicate Failure(error: JwtError) {
    error != NotValid && error != UnprocessableEntity
  }

  ghost function Run(cfg: Config, es: seq<Event>): Sys {
    if es == [] then INIT else Step(cfg, Run(cfg, es[..|es| - 1]), es[|es| - 1])
  }

  ghost predicate Legal(cfg: Config, es: seq<Event>) {
    es == [] || (Legal(cfg, es[..|es| - 1]) && Enabled(Run(cfg, es[..|es| - 1]), es[|es| - 1]))
  }
}
