/** Runs built step by step: an issue that nobody interrupts ends in a pair. */
module ProtocolIssues {
  import opened Common
  import opened Redis
  import opened Claims
  import opened Protocol
  import opened ProtocolTheorems
  import opened ProtocolRuns

  /** Settings under which the default issue goes through. */
  predicate Viable(cfg: Config) {
    cfg.accessTtl.Some? && cfg.accessTtl.value > 0 && cfg.refreshTtl > 0
  }

  /** The request is about to build a default token for family `f`. */
  predicate Building(pc: Pc, f: Id) {
    pc.Build? && pc.plan.family == Some(f) && pc.plan.ttl == None && pc.plan.extra == [] && pc.plan.audience != []
  }

  function Minted(cfg: Config, plan: Plan, now: nat, jti: Id): Job
    requires Viable(cfg)
  {
    var ttl := cfg.accessTtl.value;
    Job(TokenClaims(plan.issuer, plan.subject, plan.audience, Secs(now) + ttl, Secs(now), Secs(now), jti, []), ttl)
  }

  /** Nobody else moved and no time passed; family `f` was not spoiled. */
  ghost predicate Alone(s: Sys, t: Sys, r: nat, f: Id)
    requires r in s.reqs
  {
    t.now == s.now && r in t.reqs && t.reqs == s.reqs[r := t.reqs[r]]
    && s.hist.ids <= t.hist.ids && s.hist.handed <= t.hist.handed
    && (FamilyGroup(f) in t.hist.flawed ==> FamilyGroup(f) in s.hist.flawed)
  }

  lemma AloneTrans(s: Sys, m: Sys, t: Sys, r: nat, f: Id)
    requires r in s.reqs && Alone(s, m, r, f) && Alone(m, t, r, f)
    ensures Alone(s, t, r, f)
  {
  }

  lemma MovedBuild(cfg: Config, s: Sys, t: Sys, r: nat, f: Id)
    requires Viable(cfg) && r in s.reqs && Building(s.reqs[r], f) && Moved(cfg, s, t, r, "")
    ensures Alone(s, t, r, f) && t.db == s.db
    ensures var job := Minted(cfg, s.reqs[r].plan, s.now, ""); t.reqs[r] == PutJti(job.claims, job.ttl, Some(f))
  {
  }

  lemma MovedJti(cfg: Config, s: Sys, t: Sys, r: nat, f: Id, job: Job, jti: Id)
    requires r in s.reqs && job.ttl > 0 && s.reqs[r] == PutJti(job.claims, job.ttl, Some(f)) && Moved(cfg, s, t, r, jti)
    ensures Alone(s, t, r, f) && jti in t.db.jtis
    ensures t.reqs[r] == Enrol(SubjAdd, Job(job.claims.(jti := jti), job.ttl), Some(f))
  {
  }

  lemma MovedSubject(cfg: Config, s: Sys, t: Sys, r: nat, f: Id, job: Job)
    requires r in s.reqs && (s.reqs[r] == Enrol(SubjAdd, job, Some(f)) || s.reqs[r] == Enrol(SubjTtl, job, Some(f)))
    requires Moved(cfg, s, t, r, "")
    ensures Alone(s, t, r, f) && t.db.jtis == s.db.jtis
    ensures t.reqs[r] == Enrol(if s.reqs[r].enrol.SubjAdd? then SubjTtl else SelfCheck, job, Some(f))
  {
  }

  lemma MovedCheck(cfg: Config, s: Sys, t: Sys, r: nat, f: Id, job: Job)
    requires r in s.reqs && s.reqs[r] == Enrol(SelfCheck, job, Some(f)) && Moved(cfg, s, t, r, "")
    requires job.claims.aud != [] && Verifies(s.db, job.claims, job.claims.iss, job.claims.aud[0], s.now)
    ensures Alone(s, t, r, f) && t.db == s.db && t.reqs[r] == Link(FamAdd, job, f, "", 0)
  {
  }

  /** Claims. */
  lemma BuildAlone(cfg: Config, es: seq<Event>, r: nat, f: Id) returns (later: seq<Event>)
    requires Legal(cfg, es) && Viable(cfg) && r in Run(cfg, es).reqs && Building(Run(cfg, es).reqs[r], f)
    ensures es <= later && Legal(cfg, later) && Alone(Run(cfg, es), Run(cfg, later), r, f)
    ensures var job := Minted(cfg, Run(cfg, es).reqs[r].plan, Run(cfg, es).now, "");
      Run(cfg, later).reqs[r] == PutJti(job.claims, job.ttl, Some(f))
  {
    later := Go(cfg, es, r, "");
    MovedBuild(cfg, Run(cfg, es), Run(cfg, later), r, f);
  }

  /** The `jti` record. */
  lemma JtiAlone(cfg: Config, es: seq<Event>, r: nat, f: Id, job: Job) returns (later: seq<Event>, jti: Id)
    requires Legal(cfg, es) && job.ttl > 0 && r in Run(cfg, es).reqs && Run(cfg, es).reqs[r] == PutJti(job.claims, job.ttl, Some(f))
    ensures es <= later && Legal(cfg, later) && Alone(Run(cfg, es), Run(cfg, later), r, f)
    ensures Run(cfg, later).reqs[r] == Enrol(SubjAdd, Job(job.claims.(jti := jti), job.ttl), Some(f))
    ensures jti in Run(cfg, later).db.jtis
  {
    jti := FreshId(Run(cfg, es).hist.ids);
    later := GoWith(cfg, es, r, jti, "");
    MovedJti(cfg, Run(cfg, es), Run(cfg, later), r, f, job, jti);
  }

  lemma MintJti(cfg: Config, es: seq<Event>, r: nat, f: Id) returns (later: seq<Event>, jti: Id)
    requires Legal(cfg, es) && Viable(cfg) && r in Run(cfg, es).reqs && Building(Run(cfg, es).reqs[r], f)
    ensures es <= later && Legal(cfg, later) && Alone(Run(cfg, es), Run(cfg, later), r, f)
    ensures Run(cfg, later).reqs[r] == Enrol(SubjAdd, Minted(cfg, Run(cfg, es).reqs[r].plan, Run(cfg, es).now, jti), Some(f))
    ensures jti in Run(cfg, later).db.jtis
  {
    var built := BuildAlone(cfg, es, r, f);
    later, jti := JtiAlone(cfg, built, r, f, Minted(cfg, Run(cfg, es).reqs[r].plan, Run(cfg, es).now, ""));
    AloneTrans(Run(cfg, es), Run(cfg, built), Run(cfg, later), r, f);
    PrefixTrans(es, built, later);
  }

  /** The subject index. */
  lemma EnrolAlone(cfg: Config, es: seq<Event>, r: nat, f: Id, job: Job) returns (later: seq<Event>)
    requires Legal(cfg, es) && r in Run(cfg, es).reqs && Run(cfg, es).reqs[r] == Enrol(SubjAdd, job, Some(f))
    ensures es <= later && Legal(cfg, later) && Alone(Run(cfg, es), Run(cfg, later), r, f)
    ensures Run(cfg, later).reqs[r] == Enrol(SelfCheck, job, Some(f)) && Run(cfg, later).db.jtis == Run(cfg, es).db.jtis
  {
    var added := Go(cfg, es, r, "");
    MovedSubject(cfg, Run(cfg, es), Run(cfg, added), r, f, job);
    later := Go(cfg, added, r, "");
    MovedSubject(cfg, Run(cfg, added), Run(cfg, later), r, f, job);
    AloneTrans(Run(cfg, es), Run(cfg, added), Run(cfg, later), r, f);
    PrefixTrans(es, added, later);
  }

  lemma CheckAlone(cfg: Config, es: seq<Event>, r: nat, f: Id, job: Job) returns (later: seq<Event>)
    requires Legal(cfg, es) && r in Run(cfg, es).reqs && Run(cfg, es).reqs[r] == Enrol(SelfCheck, job, Some(f))
    requires job.claims.aud != [] && Verifies(Run(cfg, es).db, job.claims, job.claims.iss, job.claims.aud[0], Run(cfg, es).now)
    ensures es <= later && Legal(cfg, later) && Alone(Run(cfg, es), Run(cfg, later), r, f)
    ensures Run(cfg, later).reqs[r] == Link(FamAdd, job, f, "", 0) && Run(cfg, later).db.jtis == Run(cfg, es).db.jtis
  {
    later := Go(cfg, es, r, "");
    MovedCheck(cfg, Run(cfg, es), Run(cfg, later), r, f, job);
  }

  /** An access token from plan to self-check. */
  lemma MintAlone(cfg: Config, es: seq<Event>, r: nat, f: Id) returns (later: seq<Event>, jti: Id)
    requires Legal(cfg, es) && Viable(cfg) && r in Run(cfg, es).reqs && Building(Run(cfg, es).reqs[r], f)
    ensures es <= later && Legal(cfg, later) && Alone(Run(cfg, es), Run(cfg, later), r, f)
    ensures Run(cfg, later).reqs[r] == Link(FamAdd, Minted(cfg, Run(cfg, es).reqs[r].plan, Run(cfg, es).now, jti), f, "", 0)
    ensures jti in Run(cfg, later).db.jtis
  {
    var minted;
    minted, jti := MintJti(cfg, es, r, f);
    var job := Minted(cfg, Run(cfg, es).reqs[r].plan, Run(cfg, es).now, jti);
    var enrolled := EnrolAlone(cfg, minted, r, f, job);
    AloneTrans(Run(cfg, es), Run(cfg, minted), Run(cfg, enrolled), r, f);
    later := CheckAlone(cfg, enrolled, r, f, job);
    AloneTrans(Run(cfg, es), Run(cfg, enrolled), Run(cfg, later), r, f);
    PrefixTrans(es, minted, enrolled);
    PrefixTrans(es, enrolled, later);
  }

  // ---------- the family index and the refresh record ----------

  lemma MovedFamily(cfg: Config, s: Sys, t: Sys, r: nat, f: Id, job: Job)
    requires r in s.reqs && (s.reqs[r] == Link(FamAdd, job, f, "", 0) || s.reqs[r] == Link(FamTtl, job, f, "", 0))
    requires Moved(cfg, s, t, r, "") && s.now < job.claims.exp * MILLIS && job.ttl <= cfg.refreshTtl
    ensures Alone(s, t, r, f) && t.db.jtis == s.db.jtis
    ensures t.reqs[r] == Link(if s.reqs[r].link.FamAdd? then FamTtl else PutRec, job, f, "", 0)
  {
  }

  lemma MovedRecord(cfg: Config, s: Sys, t: Sys, r: nat, f: Id, job: Job, rid: Id)
    requires r in s.reqs && s.reqs[r] == Link(PutRec, job, f, "", 0) && Moved(cfg, s, t, r, rid) && rid !in s.db.hashes
    ensures Alone(s, t, r, f) && t.db.jtis == s.db.jtis && t.reqs[r] == Link(RecTtl, job, f, rid, 0)
    ensures t.db.hashes == s.db.hashes[rid := Hash(Some(RefreshRecord(job.claims.sub, job.claims.aud, f)), false, Never)]
  {
  }

  lemma MovedRecordTtl(cfg: Config, s: Sys, t: Sys, r: nat, f: Id, job: Job, rid: Id)
    requires cfg.refreshTtl > 0 && r in s.reqs && s.reqs[r] == Link(RecTtl, job, f, rid, 0) && Moved(cfg, s, t, r, "")
    requires rid in s.db.hashes
    ensures Alone(s, t, r, f) && t.db.jtis == s.db.jtis && t.reqs[r] == Link(Stamp, job, f, rid, 0)
    ensures rid in t.db.hashes && t.db.hashes[rid] == s.db.hashes[rid].(deadline := t.db.hashes[rid].deadline)
  {
  }

  lemma MovedIndex(cfg: Config, s: Sys, t: Sys, r: nat, f: Id, job: Job, rid: Id)
    requires r in s.reqs && s.reqs[r] == Link(Stamp, job, f, rid, 0) && Moved(cfg, s, t, r, "")
    ensures Alone(s, t, r, f) && t.db == s.db && t.reqs[r] == Link(IdxAdd, job, f, rid, Secs(s.now) + cfg.refreshTtl)
  {
  }

  lemma MovedEntry(cfg: Config, s: Sys, t: Sys, r: nat, f: Id, job: Job, rid: Id, rexp: nat)
    requires r in s.reqs && s.reqs[r] == Link(IdxAdd, job, f, rid, rexp) && Moved(cfg, s, t, r, "")
    ensures Alone(s, t, r, f) && t.db.jtis == s.db.jtis && t.db.hashes == s.db.hashes
    ensures t.reqs[r] == Link(IdxTtl, job, f, rid, rexp)
    ensures FamilyGroup(f) in t.db.groups && RefreshKey(rid) in t.db.groups[FamilyGroup(f)].scores
            && t.db.groups[FamilyGroup(f)].scores[RefreshKey(rid)] == rexp
  {
  }

  lemma MovedEntryTtl(cfg: Config, s: Sys, t: Sys, r: nat, f: Id, job: Job, rid: Id, rexp: nat)
    requires r in s.reqs && s.reqs[r] == Link(IdxTtl, job, f, rid, rexp) && Moved(cfg, s, t, r, "")
    requires s.now < rexp * MILLIS && FamilyGroup(f) in s.db.groups
    ensures Alone(s, t, r, f) && t.db.jtis == s.db.jtis && t.db.hashes == s.db.hashes && rid in t.hist.handed
    ensures t.reqs[r] == Done(Paired(job.claims, rid))
    ensures FamilyGroup(f) in t.db.groups && t.db.groups[FamilyGroup(f)].scores == s.db.groups[FamilyGroup(f)].scores
  {
  }

  /** The access token enters the family index. */
  lemma LinkAccess(cfg: Config, es: seq<Event>, r: nat, f: Id, job: Job) returns (later: seq<Event>)
    requires Legal(cfg, es) && r in Run(cfg, es).reqs && Run(cfg, es).reqs[r] == Link(FamAdd, job, f, "", 0)
    requires Run(cfg, es).now < job.claims.exp * MILLIS && job.ttl <= cfg.refreshTtl
    ensures es <= later && Legal(cfg, later) && Alone(Run(cfg, es), Run(cfg, later), r, f)
    ensures Run(cfg, later).reqs[r] == Link(PutRec, job, f, "", 0) && Run(cfg, later).db.jtis == Run(cfg, es).db.jtis
  {
    var added := Go(cfg, es, r, "");
    MovedFamily(cfg, Run(cfg, es), Run(cfg, added), r, f, job);
    later := Go(cfg, added, r, "");
    MovedFamily(cfg, Run(cfg, added), Run(cfg, later), r, f, job);
    AloneTrans(Run(cfg, es), Run(cfg, added), Run(cfg, later), r, f);
    PrefixTrans(es, added, later);
  }

  /** The refresh record is stored. */
  lemma StoreAlone(cfg: Config, es: seq<Event>, r: nat, f: Id, job: Job) returns (later: seq<Event>, rid: Id)
    requires Legal(cfg, es) && cfg.refreshTtl > 0 && r in Run(cfg, es).reqs && Run(cfg, es).reqs[r] == Link(PutRec, job, f, "", 0)
    ensures es <= later && Legal(cfg, later) && Alone(Run(cfg, es), Run(cfg, later), r, f)
    ensures Run(cfg, later).reqs[r] == Link(Stamp, job, f, rid, 0) && Run(cfg, later).db.jtis == Run(cfg, es).db.jtis
    ensures Unspent(Run(cfg, later).db, rid, RefreshRecord(job.claims.sub, job.claims.aud, f))
  {
    rid := FreshId(Run(cfg, es).hist.ids + Run(cfg, es).db.hashes.Keys);
    var put := GoWith(cfg, es, r, rid, "");
    MovedRecord(cfg, Run(cfg, es), Run(cfg, put), r, f, job, rid);
    later := Go(cfg, put, r, "");
    MovedRecordTtl(cfg, Run(cfg, put), Run(cfg, later), r, f, job, rid);
    AloneTrans(Run(cfg, es), Run(cfg, put), Run(cfg, later), r, f);
    PrefixTrans(es, put, later);
  }

  /** A refresh token that is stored and not used. */
  predicate Unspent(db: Db, id: Id, record: RefreshRecord) {
    id in db.hashes && db.hashes[id].record == Some(record) && !db.hashes[id].used
  }

  predicate Indexed(s: Sys, f: Id, id: Id) {
    FamilyGroup(f) in s.db.groups && RefreshKey(id) in s.db.groups[FamilyGroup(f)].scores
    && Secs(s.now) < s.db.groups[FamilyGroup(f)].scores[RefreshKey(id)]
  }

  lemma IndexStates(s: Sys, m: Sys, t: Sys, r: nat, f: Id, rid: Id, rexp: nat)
    requires r in s.reqs && Alone(s, m, r, f) && Alone(m, t, r, f) && Secs(s.now) < rexp
    requires FamilyGroup(f) in m.db.groups && RefreshKey(rid) in m.db.groups[FamilyGroup(f)].scores
             && m.db.groups[FamilyGroup(f)].scores[RefreshKey(rid)] == rexp
    requires FamilyGroup(f) in t.db.groups && t.db.groups[FamilyGroup(f)].scores == m.db.groups[FamilyGroup(f)].scores
    ensures Alone(s, t, r, f) && Indexed(t, f, rid)
  {
  }

  /** The refresh token enters the family index and is handed out. */
  lemma IndexAlone(cfg: Config, es: seq<Event>, r: nat, f: Id, job: Job, rid: Id, rexp: nat) returns (later: seq<Event>)
    requires Legal(cfg, es) && r in Run(cfg, es).reqs && Run(cfg, es).reqs[r] == Link(IdxAdd, job, f, rid, rexp)
    requires Secs(Run(cfg, es).now) < rexp
    ensures es <= later && Legal(cfg, later) && Alone(Run(cfg, es), Run(cfg, later), r, f)
    ensures Run(cfg, later).reqs[r] == Done(Paired(job.claims, rid)) && rid in Run(cfg, later).hist.handed
    ensures Run(cfg, later).db.jtis == Run(cfg, es).db.jtis && Run(cfg, later).db.hashes == Run(cfg, es).db.hashes
    ensures Indexed(Run(cfg, later), f, rid)
  {
    var added := Go(cfg, es, r, "");
    MovedEntry(cfg, Run(cfg, es), Run(cfg, added), r, f, job, rid, rexp);
    later := Go(cfg, added, r, "");
    MovedEntryTtl(cfg, Run(cfg, added), Run(cfg, later), r, f, job, rid, rexp);
    IndexStates(Run(cfg, es), Run(cfg, added), Run(cfg, later), r, f, rid, rexp);
    PrefixTrans(es, added, later);
  }

  lemma StampAlone(cfg: Config, es: seq<Event>, r: nat, f: Id, job: Job, rid: Id) returns (later: seq<Event>)
    requires Legal(cfg, es) && r in Run(cfg, es).reqs && Run(cfg, es).reqs[r] == Link(Stamp, job, f, rid, 0)
    ensures es <= later && Legal(cfg, later) && Alone(Run(cfg, es), Run(cfg, later), r, f)
    ensures Run(cfg, later).reqs[r] == Link(IdxAdd, job, f, rid, Secs(Run(cfg, es).now) + cfg.refreshTtl)
    ensures Run(cfg, later).db == Run(cfg, es).db
  {
    later := Go(cfg, es, r, "");
    MovedIndex(cfg, Run(cfg, es), Run(cfg, later), r, f, job, rid);
  }

  /** A refresh token from record to hand-over. */
  lemma HandOver(cfg: Config, es: seq<Event>, r: nat, f: Id, job: Job) returns (later: seq<Event>, rid: Id)
    requires Legal(cfg, es) && cfg.refreshTtl > 0 && r in Run(cfg, es).reqs && Run(cfg, es).reqs[r] == Link(PutRec, job, f, "", 0)
    ensures es <= later && Legal(cfg, later) && Alone(Run(cfg, es), Run(cfg, later), r, f)
    ensures Run(cfg, later).reqs[r] == Done(Paired(job.claims, rid)) && rid in Run(cfg, later).hist.handed
    ensures Run(cfg, later).db.jtis == Run(cfg, es).db.jtis
    ensures Unspent(Run(cfg, later).db, rid, RefreshRecord(job.claims.sub, job.claims.aud, f)) && Indexed(Run(cfg, later), f, rid)
  {
    var stored;
    stored, rid := StoreAlone(cfg, es, r, f, job);
    var stamped := StampAlone(cfg, stored, r, f, job, rid);
    AloneTrans(Run(cfg, es), Run(cfg, stored), Run(cfg, stamped), r, f);
    PrefixTrans(es, stored, stamped);
    later := IndexAlone(cfg, stamped, r, f, job, rid, Secs(Run(cfg, stored).now) + cfg.refreshTtl);
    AloneTrans(Run(cfg, es), Run(cfg, stamped), Run(cfg, later), r, f);
    PrefixTrans(es, stamped, later);
  }

  /** What a completed issue leaves behind: a pair whose access token verifies and whose refresh token is
    * stored, unused and indexed. */
  ghost predicate PairReady(s: Sys, r: nat, plan: Plan, f: Id, access: TokenClaims, rid: Id)
    requires plan.audience != []
  {
    && r in s.reqs && s.reqs[r] == Done(Paired(access, rid)) && rid in s.hist.handed
    && access.sub == plan.subject && access.aud == plan.audience
    && Verifies(s.db, access, plan.issuer, plan.audience[0], s.now)
    && Unspent(s.db, rid, RefreshRecord(plan.subject, plan.audience, f)) && Indexed(s, f, rid)
  }

  /** A default issue that nobody interrupts ends in a pair. */
  lemma IssueAlone(cfg: Config, es: seq<Event>, r: nat, f: Id) returns (later: seq<Event>, access: TokenClaims, rid: Id)
    requires Legal(cfg, es) && Viable(cfg) && cfg.accessTtl.value <= cfg.refreshTtl
    requires r in Run(cfg, es).reqs && Building(Run(cfg, es).reqs[r], f)
    ensures es <= later && Legal(cfg, later) && Alone(Run(cfg, es), Run(cfg, later), r, f)
    ensures PairReady(Run(cfg, later), r, Run(cfg, es).reqs[r].plan, f, access, rid)
  {
    var minted, jti := MintAlone(cfg, es, r, f);
    var job := Minted(cfg, Run(cfg, es).reqs[r].plan, Run(cfg, es).now, jti);
    access := job.claims;
    var linked := LinkAccess(cfg, minted, r, f, job);
    AloneTrans(Run(cfg, es), Run(cfg, minted), Run(cfg, linked), r, f);
    PrefixTrans(es, minted, linked);
    later, rid := HandOver(cfg, linked, r, f, job);
    AloneTrans(Run(cfg, es), Run(cfg, linked), Run(cfg, later), r, f);
    PrefixTrans(es, linked, later);
  }
}
