/** The token store as the service calls it: each operation sends its Redis commands in order,
  * while other requests and the clock interfere between any two of them.
  *
  * A client keeps the real store (`db`, `clock`) and, as a ghost, the run of the step machine
  * that produced it. `r` names the request an operation works for, `spare` the UUIDs the
  * caller has drawn and not used yet. What becomes of each command a client sends is an input, `fault`.
  */
module RedisStore {
  import opened Common
  import opened Redis
  import opened Claims
  import opened Protocol
  import opened ProtocolTheorems
  import opened ProtocolRevocation

  class RedisClient {
    const cfg: Config
    const fault: nat -> Fault
    var db: Db
    var clock: nat
    /** How many commands this client has sent. */
    var sent: nat
    ghost var events: seq<Event>

    ghost function State(): Sys
      reads this
    {
      Run(cfg, events)
    }

    /** The store is what the run so far makes of it, and the run is legal. */
    ghost predicate Valid()
      reads this
    {
      Legal(cfg, events) && State().db == db && State().now == clock
    }

    ghost predicate Serves(r: nat, pc: Pc)
      reads this
    {
      Valid() && r in State().reqs && State().reqs[r] == pc
    }

    ghost predicate Unused(spare: set<Id>)
      reads this
    {
      spare !! State().hist.ids
    }

    /** No command this client has sent since then met a fault. */
    predicate Clean(from: nat)
      reads this
    {
      AllMet(fault, from, sent)
    }

    constructor (cfg: Config, fault: nat -> Fault)
      ensures Valid() && events == [] && sent == 0 && this.cfg == cfg && this.fault == fault
    {
      this.cfg, this.fault := cfg, fault;
      db, clock, sent, events := EMPTY_DB, 0, 0, [];
    }

    /** The clock moves and keys expire. */
    method PassTime(d: nat)
      requires Valid()
      modifies this
      ensures Valid() && old(events) <= events && old(clock) <= clock
      ensures State().reqs == old(State().reqs) && State().hist.ids == old(State().hist.ids) && sent == old(sent)
    {
      ghost var before := events;
      clock := clock + d;
      db := Expire(db, clock);
      TickRun(cfg, before, d);
      events := events + [Tick(d)];
    }

    /** Other requests run and time passes. The contract is all a caller may rely on: the run is
      * extended legally, its own request does not move, drawn UUIDs are not drawn again. */
    method Interfere(ghost r: nat, ghost pc: Pc, ghost spare: set<Id>)
      requires Serves(r, pc) && Unused(spare)
      modifies this
      ensures Serves(r, pc) && Unused(spare) && old(events) <= events && sent == old(sent)
    {
      var d: int := *;
      if d > 0 {
        PassTime(d);
      }
    }

    /** The same between two steps of a caller that has no request of its own. */
    method Pause()
      requires Valid()
      modifies this
      ensures Valid() && old(events) <= events && old(clock) <= clock && sent == old(sent)
    {
      var d: int := *;
      if d > 0 {
        PassTime(d);
      }
    }

    /** A step of the request that takes effect in the store. */
    method Perform(ghost r: nat, cmd: Cmd, ghost uuid: Id, ghost spare: set<Id>)
      requires Valid() && r in State().reqs && Unused(spare + {uuid}) && uuid !in spare
      requires cmd == Command(cfg, State().reqs[r], uuid) && (cmd.CmdDel? ==> spare == {})
      modifies `db, `events
      ensures events == old(events) + [Exec(r, uuid)] && Unused(spare)
      ensures Serves(r, Next(cfg, old(State().reqs[r]), old(db), clock, uuid))
      ensures db == Apply(cmd, old(db), clock)
    {
      db := Apply(cmd, db, clock);
      Snoc(cfg, events, Exec(r, uuid));
      SendIds(cfg, State(), r, uuid);
      events := events + [Exec(r, uuid)];
    }

    /** The request ends with a failure. */
    method Fail(error: JwtError, ghost r: nat, ghost spare: set<Id>)
      requires Valid() && r in State().reqs && Failure(error) && Unused(spare)
      modifies `events
      ensures old(events) <= events && Serves(r, Done(Rejected(error))) && Unused(spare)
    {
      Snoc(cfg, events, Abort(r, error));
      events := events + [Abort(r, error)];
    }

    /** A step that sends no command: reading the clock, building claims. */
    method Think(ghost r: nat, ghost pc: Pc, ghost spare: set<Id>)
      requires Serves(r, pc) && Unused(spare)
      requires pc.Build? || (pc.Enrol? && pc.enrol.SelfCheck?) || (pc.Link? && pc.link.Stamp?) || (pc.Sweep? && pc.sweep.CutStamp?)
      modifies `db, `events
      ensures |events| == |old(events)| + 1 && old(events) <= events && Unused(spare)
      ensures events[|old(events)|].Exec? && events[|old(events)|].r == r
      ensures Serves(r, Next(cfg, pc, old(db), clock, "")) && db == old(db)
    {
      ghost var u := FreshId(State().hist.ids + spare);
      Undrawn(cfg, pc, db, clock, u);
      Perform(r, NoCmd, u, spare);
    }

    /** One command. It succeeds unless it meets a fault, which may strike before it takes effect or after. */
    method Send(ghost r: nat, cmd: Cmd, ghost uuid: Id, ghost spare: set<Id>) returns (ok: bool)
      requires Valid() && r in State().reqs && Unused(spare + {uuid}) && uuid !in spare
      requires cmd == Command(cfg, State().reqs[r], uuid) && (cmd.CmdDel? ==> spare == {})
      modifies this
      ensures old(events) <= events && Unused(spare)
      ensures sent == old(sent) + 1 && (ok <==> Met(fault, old(sent)))
      ensures ok ==> events == old(events) + [Exec(r, uuid)]
      ensures ok ==> Serves(r, Next(cfg, old(State().reqs[r]), old(db), clock, uuid)) && clock == old(clock)
      ensures ok ==> db == Apply(cmd, old(db), clock)
      ensures !ok ==> Serves(r, Done(Rejected(StoreError)))
    {
      var outcome := fault(sent);
      sent := sent + 1;
      if !outcome.Unsent? {
        Perform(r, cmd, uuid, spare);
      }
      ok := outcome.NoFault?;
      if !ok {
        Fail(StoreError, r, spare);
      }
    }

    /** A command that draws no UUID. */
    method SendPlain(cmd: Cmd, ghost r: nat, ghost pc: Pc, ghost spare: set<Id>) returns (ok: bool)
      requires Serves(r, pc) && Unused(spare) && !Draws(pc)
      requires cmd == Command(cfg, pc, "") && (cmd.CmdDel? ==> spare == {})
      modifies this
      ensures old(events) <= events && Unused(spare)
      ensures sent == old(sent) + 1 && (ok <==> Clean(old(sent)))
      ensures ok ==> |events| == |old(events)| + 1 && events[|old(events)|].Exec? && events[|old(events)|].r == r
      ensures ok ==> Serves(r, Next(cfg, pc, old(db), clock, "")) && clock == old(clock)
      ensures ok ==> db == Apply(cmd, old(db), clock)
      ensures !ok ==> Serves(r, Done(Rejected(StoreError)))
    {
      ghost var u := FreshId(State().hist.ids + spare);
      Undrawn(cfg, pc, db, clock, u);
      ok := Send(r, cmd, u, spare);
      AllMetOne(fault, old(sent));
    }

    // ---------- the store operations ----------

    /** SETEX. */
    method StoreJti(jti: Id, ttl: nat, ghost r: nat, ghost spare: set<Id>, ghost draft: TokenClaims, ghost family: Option<Id>)
      returns (res: Result<(), JtiError>)
      requires Serves(r, PutJti(draft, ttl, family)) && Unused(spare + {jti}) && jti !in spare
      modifies this
      ensures old(events) <= events && Unused(spare)
      ensures sent == old(sent) + 1 && (res.Ok? <==> ttl > 0 && Clean(old(sent)))
      ensures res.Ok? ==> Serves(r, Enrol(SubjAdd, Job(draft.(jti := jti), ttl), family))
      ensures res.Ok? ==> ttl > 0 && db == SetEx(old(db), clock, jti, ttl)
      ensures res.Err? ==> Serves(r, Done(Rejected(StoreError)))
    {
      var ok := Send(r, if ttl == 0 then NoCmd else CmdSetEx(jti, ttl), jti, spare);
      AllMetOne(fault, old(sent));
      res := if ok && ttl > 0 then Ok(()) else Err(WrongOperation);
    }

    /** EXISTS. */
    method CheckJti(jti: Id) returns (res: Result<bool, JtiError>)
      requires Valid()
      modifies `sent
      ensures Valid() && sent == old(sent) + 1 && (res.Ok? <==> Clean(old(sent)))
      ensures res.Ok? ==> res.value == (jti in db.jtis)
    {
      AllMetOne(fault, sent);
      res := if Met(fault, sent) then Ok(jti in db.jtis) else Err(BadConnection);
      sent := sent + 1;
    }

    /** DEL. */
    method DeleteJti(key: Key, ghost r: nat) returns (res: Result<(), JtiError>)
      requires Serves(r, DelOne(key))
      modifies this
      ensures old(events) <= events
      ensures sent == old(sent) + 1 && (res.Ok? <==> Clean(old(sent)))
      ensures res.Ok? ==> Serves(r, Done(Deleted)) && key in State().hist.removed && db == Del(old(db), {key})
      ensures res.Err? ==> Serves(r, Done(Rejected(StoreError)))
    {
      ghost var u := FreshId(State().hist.ids);
      var ok := Send(r, CmdDel({key}), u, {});
      AllMetOne(fault, old(sent));
      if ok { RunSnoc(cfg, old(events), Exec(r, u)); }
      res := if ok then Ok(()) else Err(WrongOperation);
    }

    method ZAddTo(g: GroupKey, member: Key, score: nat, ghost r: nat, ghost pc: Pc, ghost spare: set<Id>) returns (ok: bool)
      requires Serves(r, pc) && Unused(spare) && EntersGroup(pc, g, member, score)
      modifies this
      ensures old(events) <= events && Unused(spare)
      ensures sent == old(sent) + 1 && (ok <==> Clean(old(sent)))
      ensures ok ==> Serves(r, MidEntry(pc)) && db == ZAdd(old(db), g, member, score)
      ensures !ok ==> Serves(r, Done(Rejected(StoreError)))
    {
      FirstHalf(cfg, pc, g, member, score, db, clock);
      ok := SendPlain(CmdZAdd(g, member, score), r, pc, spare);
    }

    method ExpireGroupAt(g: GroupKey, sec: nat, ghost member: Key, ghost r: nat, ghost pc: Pc, ghost spare: set<Id>) returns (ok: bool)
      requires Serves(r, MidEntry(pc)) && Unused(spare) && EntersGroup(pc, g, member, sec)
      modifies this
      ensures old(events) <= events && Unused(spare)
      ensures sent == old(sent) + 1 && (ok <==> Clean(old(sent)))
      ensures ok ==> Serves(r, AfterEntry(pc)) && db == ExpireAt(old(db), clock, g, sec)
      ensures !ok ==> Serves(r, Done(Rejected(StoreError)))
    {
      SecondHalf(cfg, pc, g, member, sec, db, clock);
      ok := SendPlain(CmdExpireAt(g, sec), r, MidEntry(pc), spare);
    }

    /** ZADD, then EXPIREAT. */
    method AddToGroup(g: GroupKey, member: Key, expiresAt: nat, ghost r: nat, ghost pc: Pc, ghost spare: set<Id>)
      returns (res: Result<(), JtiError>)
      requires Serves(r, pc) && Unused(spare) && EntersGroup(pc, g, member, expiresAt)
      modifies this
      ensures old(events) <= events && Unused(spare)
      ensures sent > old(sent) && (res.Ok? <==> Clean(old(sent)))
      ensures res.Ok? ==> sent == old(sent) + 2
      ensures res.Ok? ==> Serves(r, AfterEntry(pc))
      ensures res.Err? ==> Serves(r, Done(Rejected(StoreError)))
    {
      var ok := ZAddTo(g, member, expiresAt, r, pc, spare);
      if !ok { return Err(WrongOperation); }
      Interfere(r, MidEntry(pc), spare);
      ok := ExpireGroupAt(g, expiresAt, member, r, pc, spare);
      AllMetSplit(fault, old(sent), old(sent) + 1, sent);
      res := if ok then Ok(()) else Err(WrongOperation);
    }

    /** One step of a sweep. */
    method SendSweep(cmd: Cmd, ghost r: nat, ghost pc: Pc) returns (ok: bool)
      requires Serves(r, pc) && pc.Sweep? && cmd == SweepCommand(pc.sweep, pc.g, pc.cutoff, pc.members)
      modifies this
      ensures old(events) <= events
      ensures sent == old(sent) + 1 && (ok <==> Clean(old(sent)))
      ensures ok ==> Serves(r, SweepNext(pc.sweep, pc.g, pc.cutoff, pc.members, old(db), clock)) && db == Apply(cmd, old(db), clock)
      ensures ok ==> clock == old(clock) && |events| == |old(events)| + 1 && events[|old(events)|].Exec? && events[|old(events)|].r == r
      ensures !ok ==> Serves(r, Done(Rejected(StoreError)))
    {
      ok := SendPlain(cmd, r, pc, {});
    }

    /** Clock, ZREMRANGEBYSCORE, ZRANGE, DEL of the members, DEL of the group; returns how many
      * members. The witness `at` is where in the run the ZRANGE was. */
    method RevokeGroup(g: GroupKey, ghost r: nat) returns (res: Result<nat, JtiError>, ghost at: nat)
      requires Serves(r, Sweep(CutStamp, g, 0, {}))
      modifies this
      ensures old(events) <= events
      ensures sent > old(sent) && (res.Ok? <==> Clean(old(sent)))
      ensures res.Ok? ==> sent == old(sent) + (if res.value == 0 then 3 else 4)
      ensures res.Ok? ==> |old(events)| <= at && SweptBy(cfg, events, at, r, g, res.value)
      ensures res.Ok? ==> Valid()
      ensures res.Err? ==> Serves(r, Done(Rejected(StoreError)))
    {
      at := 0;
      var ok, now := PruneGroup(g, r);
      if !ok { return Err(WrongOperation), at; }
      Interfere(r, Sweep(Range, g, now, {}), {});
      res, at := SweepGroup(g, r, now);
      AllMetSplit(fault, old(sent), old(sent) + 1, sent);
    }

    method SweepGroup(g: GroupKey, ghost r: nat, ghost now: nat) returns (res: Result<nat, JtiError>, ghost at: nat)
      requires Serves(r, Sweep(Range, g, now, {}))
      modifies this
      ensures old(events) <= events
      ensures sent > old(sent) && (res.Ok? <==> Clean(old(sent)))
      ensures res.Ok? ==> sent == old(sent) + (if res.value == 0 then 2 else 3)
      ensures res.Ok? ==> |old(events)| <= at && SweptBy(cfg, events, at, r, g, res.value)
      ensures res.Ok? ==> Valid()
      ensures res.Err? ==> Serves(r, Done(Rejected(StoreError)))
    {
      at := |events|;
      var ok, jtis := RangeGroup(g, r, now);
      if !ok { return Err(WrongOperation), at; }
      ghost var ranged := events;
      res := DeleteSwept(g, jtis, r, now);
      AllMetSplit(fault, old(sent), old(sent) + 1, sent);
      RangedKept(cfg, ranged, events, at, r, g);
    }

    /** Reads the clock and cuts off what has expired. */
    method PruneGroup(g: GroupKey, ghost r: nat) returns (ok: bool, now: nat)
      requires Serves(r, Sweep(CutStamp, g, 0, {}))
      modifies this
      ensures old(events) <= events
      ensures sent == old(sent) + 1 && (ok <==> Clean(old(sent)))
      ensures ok ==> Serves(r, Sweep(Range, g, now, {})) && now == Secs(old(clock))
      ensures !ok ==> Serves(r, Done(Rejected(StoreError)))
    {
      now := Secs(clock);
      Think(r, Sweep(CutStamp, g, 0, {}), {});
      Interfere(r, Sweep(Cut, g, now, {}), {});
      ok := SendSweep(CmdZCut(g, now), r, Sweep(Cut, g, now, {}));
    }

    method RangeGroup(g: GroupKey, ghost r: nat, ghost now: nat) returns (ok: bool, jtis: set<Key>)
      requires Serves(r, Sweep(Range, g, now, {}))
      modifies this
      ensures old(events) <= events
      ensures sent == old(sent) + 1 && (ok <==> Clean(old(sent)))
      ensures ok ==> |old(events)| < |events| && RangedAt(cfg, events, |old(events)|, r, g)
      ensures ok ==> jtis == ZRange(StateAt(cfg, events, |old(events)|).db, g)
      ensures ok ==> Serves(r, Sweep(if jtis == {} then DelGroup else DelMembers, g, now, jtis))
      ensures !ok ==> Serves(r, Done(Rejected(StoreError)))
    {
      jtis := ZRange(db, g);
      ghost var before := events;
      ok := SendSweep(NoCmd, r, Sweep(Range, g, now, {}));
      assert ok ==> events[..|before|] == before;
    }

    /** The DEL of the members, left out when there is nothing to delete. */
    method DeleteMembers(g: GroupKey, jtis: set<Key>, ghost r: nat, ghost now: nat) returns (ok: bool)
      requires Serves(r, Sweep(if jtis == {} then DelGroup else DelMembers, g, now, jtis))
      modifies this
      ensures old(events) <= events
      ensures sent == old(sent) + (if jtis == {} then 0 else 1) && (ok <==> Clean(old(sent)))
      ensures ok ==> Serves(r, Sweep(DelGroup, g, now, jtis)) && db == Del(old(db), jtis)
      ensures !ok ==> Serves(r, Done(Rejected(StoreError)))
    {
      ok := true;
      if jtis != {} {
        ok := SendSweep(CmdDel(jtis), r, Sweep(DelMembers, g, now, jtis));
      } else {
        assert Del(db, {}) == db;
      }
    }

    method DeleteGroup(g: GroupKey, ghost jtis: set<Key>, ghost r: nat, ghost now: nat) returns (ok: bool)
      requires Serves(r, Sweep(DelGroup, g, now, jtis))
      modifies this
      ensures old(events) <= events
      ensures sent == old(sent) + 1 && (ok <==> Clean(old(sent)))
      ensures ok ==> Serves(r, Done(SweepOutcome(g, jtis))) && g !in db.groups
      ensures !ok ==> Serves(r, Done(Rejected(StoreError)))
    {
      ok := SendSweep(CmdDel({GroupName(g)}), r, Sweep(DelGroup, g, now, jtis));
    }

    /** The two DELs at the end of `RevokeGroup`. */
    method DeleteSwept(g: GroupKey, jtis: set<Key>, ghost r: nat, ghost now: nat) returns (res: Result<nat, JtiError>)
      requires Serves(r, Sweep(if jtis == {} then DelGroup else DelMembers, g, now, jtis))
      modifies this
      ensures old(events) <= events
      ensures sent > old(sent) && (res.Ok? <==> Clean(old(sent)))
      ensures res.Ok? ==> sent == old(sent) + (if res.value == 0 then 1 else 2)
      ensures res.Ok? ==> res.value == |jtis| && Serves(r, Done(SweepOutcome(g, jtis))) && g !in db.groups
      ensures res.Err? ==> Serves(r, Done(Rejected(StoreError)))
    {
      var ok := DeleteMembers(g, jtis, r, now);
      ghost var middle := sent;
      if !ok { return Err(WrongOperation); }
      Interfere(r, Sweep(DelGroup, g, now, jtis), {});
      ok := DeleteGroup(g, jtis, r, now);
      AllMetSplit(fault, old(sent), middle, sent);
      res := if ok then Ok(|jtis|) else Err(WrongOperation);
    }

    method HSetRecord(id: Id, record: RefreshRecord, ghost r: nat, ghost job: Job, ghost spare: set<Id>) returns (ok: bool)
      requires Serves(r, Link(PutRec, job, record.family, "", 0)) && Unused(spare + {id}) && id !in spare
      requires record == RefreshRecord(job.claims.sub, job.claims.aud, record.family)
      modifies this
      ensures old(events) <= events && Unused(spare)
      ensures sent == old(sent) + 1 && (ok <==> Clean(old(sent)))
      ensures ok ==> Serves(r, Link(RecTtl, job, record.family, id, 0)) && db == HSet(old(db), id, record)
      ensures !ok ==> Serves(r, Done(Rejected(StoreError)))
    {
      ok := Send(r, CmdHSet(id, record), id, spare);
      AllMetOne(fault, old(sent));
    }

    method ExpireRecord(id: Id, ghost f: Id, ghost r: nat, ghost job: Job, ghost spare: set<Id>) returns (ok: bool)
      requires Serves(r, Link(RecTtl, job, f, id, 0)) && Unused(spare)
      modifies this
      ensures old(events) <= events && Unused(spare)
      ensures sent == old(sent) + 1 && (ok <==> Clean(old(sent)))
      ensures ok ==> Serves(r, Link(Stamp, job, f, id, 0)) && db == HExpire(old(db), clock, id, cfg.refreshTtl)
      ensures !ok ==> Serves(r, Done(Rejected(StoreError)))
    {
      RecordHalf(cfg, job, f, id, db, clock);
      ok := SendPlain(CmdHExpire(id, cfg.refreshTtl), r, Link(RecTtl, job, f, id, 0), spare);
    }

    /** HSET, then EXPIRE. */
    method StoreRefresh(id: Id, record: RefreshRecord, ghost r: nat, ghost job: Job, ghost spare: set<Id>)
      returns (res: Result<(), JtiError>)
      requires Serves(r, Link(PutRec, job, record.family, "", 0)) && Unused(spare + {id}) && id !in spare
      requires record == RefreshRecord(job.claims.sub, job.claims.aud, record.family)
      modifies this
      ensures old(events) <= events && Unused(spare)
      ensures sent > old(sent) && (res.Ok? <==> Clean(old(sent)))
      ensures res.Ok? ==> sent == old(sent) + 2
      ensures res.Ok? ==> Serves(r, Link(Stamp, job, record.family, id, 0))
      ensures res.Err? ==> Serves(r, Done(Rejected(StoreError)))
    {
      var ok := HSetRecord(id, record, r, job, spare);
      if !ok { return Err(WrongOperation); }
      Interfere(r, Link(RecTtl, job, record.family, id, 0), spare);
      ok := ExpireRecord(id, record.family, r, job, spare);
      AllMetSplit(fault, old(sent), old(sent) + 1, sent);
      res := if ok then Ok(()) else Err(WrongOperation);
    }

    /** HGETALL. */
    method GetRefresh(id: Id, issuer: string, ghost r: nat, ghost spare: set<Id>) returns (res: Result<Option<RefreshRecord>, JtiError>)
      requires Serves(r, GetRec(id, issuer)) && Unused(spare)
      modifies this
      ensures old(events) <= events && Unused(spare)
      ensures sent == old(sent) + 1 && (res.Ok? <==> Clean(old(sent)))
      ensures res.Ok? ==> res.value == HGetAll(old(db), id) && ReadAt(cfg, events, |old(events)|, r, id, res.value)
      ensures res.Ok? ==> Serves(r, if res.value.None? then Done(Rejected(NotValid)) else Mark(id, res.value.value, issuer))
      ensures res.Err? ==> Serves(r, Done(Rejected(StoreError)))
    {
      var fields := HGetAll(db, id);
      ghost var before := events;
      var ok := SendPlain(NoCmd, r, GetRec(id, issuer), spare);
      assert events[..|before|] == before;
      res := if ok then Ok(fields) else Err(WrongOperation);
    }

    /** HSETNX. */
    method MarkRefreshUsed(id: Id, ghost rec: RefreshRecord, ghost issuer: string, ghost r: nat, ghost spare: set<Id>)
      returns (res: Result<bool, JtiError>)
      requires Serves(r, Mark(id, rec, issuer)) && Unused(spare)
      modifies this
      ensures old(events) <= events && Unused(spare)
      ensures sent == old(sent) + 1 && (res.Ok? <==> Clean(old(sent)))
      ensures res.Ok? ==> res.value == HSetNxWins(old(db), id) && db == HSetNx(old(db), id)
      ensures res.Ok? ==> MarkedAt(cfg, events, |old(events)|, r, id, res.value)
      ensures res.Ok? ==> Serves(r, AfterMark(rec, issuer, res.value))
      ensures res.Err? ==> Serves(r, Done(Rejected(StoreError)))
    {
      var marked := HSetNxWins(db, id);
      ghost var before := events;
      MarkStep(cfg, id, rec, issuer, db, clock);
      var ok := SendPlain(CmdHSetNx(id), r, Mark(id, rec, issuer), spare);
      assert events[..|before|] == before;
      res := if ok then Ok(marked) else Err(WrongOperation);
    }
  }

  /** Event `at` of the run is the HGETALL of request `r` for this refresh token, and this is what it read. */
  ghost predicate ReadAt(cfg: Config, es: seq<Event>, at: nat, r: nat, id: Id, found: Option<RefreshRecord>) {
    at < |es| && es[at].Exec? && es[at].r == r && r in StateAt(cfg, es, at).reqs
    && StateAt(cfg, es, at).reqs[r].GetRec? && StateAt(cfg, es, at).reqs[r].id == id && HGetAll(StateAt(cfg, es, at).db, id) == found
  }

  /** Event `at` of the run is the HSETNX of request `r` for this refresh token, and this is its answer. */
  ghost predicate MarkedAt(cfg: Config, es: seq<Event>, at: nat, r: nat, id: Id, won: bool) {
    at < |es| && es[at].Exec? && es[at].r == r && r in StateAt(cfg, es, at).reqs
    && StateAt(cfg, es, at).reqs[r].Mark? && StateAt(cfg, es, at).reqs[r].id == id && HSetNxWins(StateAt(cfg, es, at).db, id) == won
  }

  /** The winner of the mark goes on to issue, a loser to kill the family. */
  function AfterMark(rec: RefreshRecord, issuer: string, won: bool): Pc {
    if won then Build(Plan(issuer, rec.subject, rec.audience, None, [], Some(rec.family)))
    else Sweep(CutStamp, FamilyGroup(rec.family), 0, {})
  }

  /** `pc` is about to enter `member` into `g`. */
  predicate EntersGroup(pc: Pc, g: GroupKey, member: Key, score: nat) {
    match pc
    case Enrol(SubjAdd, job, _) => g == SubjectGroup(job.claims.sub) && member == JtiKey(job.claims.jti) && score == job.claims.exp
    case Link(FamAdd, job, f, _, _) => g == FamilyGroup(f) && member == JtiKey(job.claims.jti) && score == job.claims.exp
    case Link(IdxAdd, _, f, rid, rexp) => g == FamilyGroup(f) && member == RefreshKey(rid) && score == rexp
    case _ => false
  }

  function MidEntry(pc: Pc): Pc {
    match pc
    case Enrol(SubjAdd, job, family) => Enrol(SubjTtl, job, family)
    case Link(FamAdd, job, f, rid, rexp) => Link(FamTtl, job, f, rid, rexp)
    case Link(IdxAdd, job, f, rid, rexp) => Link(IdxTtl, job, f, rid, rexp)
    case _ => pc
  }

  function AfterEntry(pc: Pc): Pc {
    match pc
    case Enrol(SubjAdd, job, family) => Enrol(SelfCheck, job, family)
    case Link(FamAdd, job, f, rid, rexp) => Link(PutRec, job, f, rid, rexp)
    case Link(IdxAdd, job, _, rid, _) => Done(Paired(job.claims, rid))
    case _ => pc
  }

  /** The ZADD of an entry. */
  lemma FirstHalf(cfg: Config, pc: Pc, g: GroupKey, member: Key, score: nat, db: Db, now: nat)
    requires EntersGroup(pc, g, member, score)
    ensures Command(cfg, pc, "") == CmdZAdd(g, member, score) && !Draws(pc)
    ensures Next(cfg, pc, db, now, "") == MidEntry(pc)
  {
  }

  /** The EXPIREAT of an entry. */
  lemma SecondHalf(cfg: Config, pc: Pc, g: GroupKey, member: Key, sec: nat, db: Db, now: nat)
    requires EntersGroup(pc, g, member, sec)
    ensures Command(cfg, MidEntry(pc), "") == CmdExpireAt(g, sec) && !Draws(MidEntry(pc))
    ensures Next(cfg, MidEntry(pc), db, now, "") == AfterEntry(pc)
  {
  }

  /** The EXPIRE of a refresh record. */
  lemma RecordHalf(cfg: Config, job: Job, f: Id, id: Id, db: Db, now: nat)
    ensures var pc := Link(RecTtl, job, f, id, 0);
            Command(cfg, pc, "") == CmdHExpire(id, cfg.refreshTtl) && !Draws(pc)
            && Next(cfg, pc, db, now, "") == Link(Stamp, job, f, id, 0)
  {
  }

  /** The HSETNX of an exchange. */
  lemma MarkStep(cfg: Config, id: Id, rec: RefreshRecord, issuer: string, db: Db, now: nat)
    ensures var pc := Mark(id, rec, issuer);
            Command(cfg, pc, "") == CmdHSetNx(id) && !Draws(pc)
            && Next(cfg, pc, db, now, "") == AfterMark(rec, issuer, HSetNxWins(db, id))
  {
  }

  /** What the clock does to a state. */
  ghost predicate Ticked(s: Sys, t: Sys, d: nat) {
    t.now == s.now + d && t.db == Expire(s.db, s.now + d) && t.reqs == s.reqs && t.hist.ids == s.hist.ids
  }

  lemma TickRun(cfg: Config, es: seq<Event>, d: nat)
    requires Legal(cfg, es)
    ensures Legal(cfg, es + [Tick(d)]) && Ticked(Run(cfg, es), Run(cfg, es + [Tick(d)]), d)
  {
    Snoc(cfg, es, Tick(d));
    TickedStep(cfg, Run(cfg, es), d);
  }

  lemma TickedStep(cfg: Config, s: Sys, d: nat)
    ensures Ticked(s, Step(cfg, s, Tick(d)), d)
  {
  }

  lemma RunSnoc(cfg: Config, es: seq<Event>, e: Event)
    ensures Run(cfg, es + [e]) == Step(cfg, Run(cfg, es), e)
  {
    assert (es + [e])[..|es|] == es;
  }

  lemma SendIds(cfg: Config, s: Sys, r: nat, uuid: Id)
    requires r in s.reqs
    ensures !Command(cfg, s.reqs[r], uuid).CmdDel? ==> Execute(cfg, s, r, uuid).hist.ids <= s.hist.ids + {uuid}
  {
  }
}
