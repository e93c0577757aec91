/** What is handed out is indexed, and a refresh record ends within a second of its index score. */
module ProtocolRecords {
  import opened Common
  import opened Redis
  import opened Claims
  import opened Protocol
  import opened ProtocolInv
  import opened ProtocolFamily

  // ---------- handed out means indexed ----------

  ghost predicate SubjectEntry(h: Hist, claims: TokenClaims) {
    (SubjectGroup(claims.sub), JtiKey(claims.jti)) in h.regs
  }

  ghost predicate FamilyEntry(h: Hist, f: Id, m: Key) {
    (FamilyGroup(f), m) in h.regs
  }

  ghost predicate EntryPc(h: Hist, pc: Pc) {
    match pc
    case Enrol(step, job, _) => !step.SubjAdd? ==> SubjectEntry(h, job.claims)
    case Link(step, job, f, rid, _) =>
      SubjectEntry(h, job.claims)
      && (!step.FamAdd? ==> FamilyEntry(h, f, JtiKey(job.claims.jti)))
      && (step.IdxTtl? ==> FamilyEntry(h, f, RefreshKey(rid)))
    case Done(Issued(claims)) => claims.jti in h.tokens && h.tokens[claims.jti] == claims && SubjectEntry(h, claims)
    case Done(Paired(access, refresh)) =>
      access.jti in h.tokens && h.tokens[access.jti] == access && SubjectEntry(h, access) && refresh in h.handed
      && exists f :: FamilyEntry(h, f, JtiKey(access.jti)) && FamilyEntry(h, f, RefreshKey(refresh))
    case _ => true
  }

  /** A token that was handed out is in its subject group, and a pair in its family group. */
  ghost predicate Entered(s: Sys) {
    forall r :: r in s.reqs ==> EntryPc(s.hist, s.reqs[r])
  }

  /** A refresh token a client has, while its record lasts, is in the index of its family. */
  ghost predicate HandedEntered(s: Sys) {
    forall id :: id in s.hist.handed && HGetAll(s.db, id) != None ==>
      FamilyEntry(s.hist, HGetAll(s.db, id).value.family, RefreshKey(id))
  }

  lemma EntryGrows(h: Hist, h': Hist, pc: Pc)
    requires EntryPc(h, pc) && Grows(h, h')
    ensures EntryPc(h', pc)
  {
    if pc.Done? && pc.outcome.Paired? {
      var f :| FamilyEntry(h, f, JtiKey(pc.outcome.access.jti)) && FamilyEntry(h, f, RefreshKey(pc.outcome.refresh));
      assert FamilyEntry(h', f, JtiKey(pc.outcome.access.jti)) && FamilyEntry(h', f, RefreshKey(pc.outcome.refresh));
    }
  }

  lemma EntryLink(cfg: Config, s: Sys, r: nat, uuid: Id)
    requires Known(s) && Entered(s) && r in s.reqs && uuid !in s.hist.ids && s.reqs[r].Link?
    ensures EntryPc(Execute(cfg, s, r, uuid).hist, Execute(cfg, s, r, uuid).reqs[r])
  {
    var pc := s.reqs[r];
    var t := Execute(cfg, s, r, uuid);
    assert KnownPc(s.hist, pc) && EntryPc(s.hist, pc);
    KnownExec(cfg, s, r, uuid);
    if pc.link.IdxTtl? {
      assert FamilyEntry(t.hist, pc.f, JtiKey(pc.job.claims.jti)) && FamilyEntry(t.hist, pc.f, RefreshKey(pc.rid));
    }
  }

  lemma EntryEnrol(cfg: Config, s: Sys, r: nat, uuid: Id)
    requires r in s.reqs && KnownPc(s.hist, s.reqs[r]) && EntryPc(s.hist, s.reqs[r]) && s.reqs[r].Enrol?
    ensures EntryPc(Execute(cfg, s, r, uuid).hist, Execute(cfg, s, r, uuid).reqs[r])
  {
  }

  lemma EntryNext(cfg: Config, s: Sys, r: nat, uuid: Id)
    requires Known(s) && Entered(s) && r in s.reqs && uuid !in s.hist.ids
    ensures EntryPc(Execute(cfg, s, r, uuid).hist, Execute(cfg, s, r, uuid).reqs[r])
  {
    var pc := s.reqs[r];
    KnownExec(cfg, s, r, uuid);
    assert KnownPc(s.hist, pc) && EntryPc(s.hist, pc);
    if pc.Link? {
      EntryLink(cfg, s, r, uuid);
    } else if pc.Done? {
      EntryGrows(s.hist, Execute(cfg, s, r, uuid).hist, pc);
    } else if pc.Enrol? {
      EntryEnrol(cfg, s, r, uuid);
    }
  }

  lemma EnteredStep(cfg: Config, s: Sys, e: Event)
    requires Known(s) && Entered(s) && Enabled(s, e)
    ensures Entered(Step(cfg, s, e))
  {
    var t := Step(cfg, s, e);
    KnownStep(cfg, s, e);
    forall q | q in t.reqs ensures EntryPc(t.hist, t.reqs[q]) {
      if q in s.reqs && t.reqs[q] == s.reqs[q] {
        EntryGrows(s.hist, t.hist, s.reqs[q]);
      } else if e.Exec? {
        EntryNext(cfg, s, e.r, e.uuid);
      }
    }
  }

  lemma HandedStep(cfg: Config, s: Sys, e: Event)
    requires Known(s) && Entered(s) && Bound(s) && HandedEntered(s) && Enabled(s, e)
    ensures HandedEntered(Step(cfg, s, e))
  {
    var t := Step(cfg, s, e);
    KnownStep(cfg, s, e);
    forall id | id in t.hist.handed && HGetAll(t.db, id) != None
      ensures FamilyEntry(t.hist, HGetAll(t.db, id).value.family, RefreshKey(id))
    {
      if e.Exec? { assert EntryPc(s.hist, s.reqs[e.r]) && BoundPc(s, s.reqs[e.r]) && KnownPc(s.hist, s.reqs[e.r]); }
      if id in s.hist.ids {
        RecordsOnlyVanish(cfg, s, e, id);
      }
    }
  }

  // ---------- the last second of a refresh record ----------

  /** The record `i` is gone before second `sec` is over. */
  ghost predicate EndsBy(db: Db, i: Id, sec: nat) {
    HGetAll(db, i) != None ==> db.hashes[i].deadline.At? && db.hashes[i].deadline.millis < (sec + 1) * MILLIS
  }

  ghost predicate LastSecond(s: Sys) {
    forall g, i :: (g, RefreshKey(i)) in s.hist.regs ==> EndsBy(s.db, i, s.hist.regs[(g, RefreshKey(i))])
  }

  ghost predicate StampPc(cfg: Config, s: Sys, pc: Pc) {
    pc.Link? && HasRid(pc.link) ==>
      (!pc.link.IdxTtl? ==> forall g :: (g, RefreshKey(pc.rid)) !in s.hist.regs)
      && match pc.link
      case RecTtl => true
      case Stamp => HGetAll(s.db, pc.rid) != None ==>
          s.db.hashes[pc.rid].deadline.At? && s.db.hashes[pc.rid].deadline.millis <= s.now + cfg.refreshTtl * MILLIS
      case _ => EndsBy(s.db, pc.rid, pc.rexp)
  }

  ghost predicate Stamped(cfg: Config, s: Sys) {
    (forall r :: r in s.reqs ==> StampPc(cfg, s, s.reqs[r])) && OwnRid(s.reqs)
  }

  /** No two requests enter the same refresh token. */
  ghost predicate OwnRid(reqs: map<nat, Pc>) {
    forall p, q :: p in reqs && q in reqs && Entering(reqs[p]) && Entering(reqs[q]) && p != q ==>
      reqs[p].rid != reqs[q].rid
  }

  predicate Entering(pc: Pc) {
    pc.Link? && HasRid(pc.link)
  }

  /** Only the EXPIRE of its own request moves the deadline of a record. */
  lemma DeadlineKept(cmd: Cmd, db: Db, now: nat, i: Id)
    requires !(cmd.CmdHSet? && cmd.id == i) && !(cmd.CmdHExpire? && cmd.id == i)
    requires HGetAll(Apply(cmd, db, now), i) != None
    ensures HGetAll(db, i) != None && Apply(cmd, db, now).hashes[i].deadline == db.hashes[i].deadline
  {
  }

  lemma DeadlineStep(cfg: Config, s: Sys, e: Event, i: Id)
    requires Known(s) && Enabled(s, e) && i in s.hist.ids && HGetAll(Step(cfg, s, e).db, i) != None
    requires e.Exec? && s.reqs[e.r].Link? && s.reqs[e.r].link.RecTtl? ==> s.reqs[e.r].rid != i
    ensures HGetAll(s.db, i) != None && Step(cfg, s, e).db.hashes[i].deadline == s.db.hashes[i].deadline
  {
    if e.Exec? { DeadlineKept(Command(cfg, s.reqs[e.r], e.uuid), s.db, s.now, i); }
  }

  /** A refresh entry in the index comes from the IDXADD step that brings its expiry. */
  lemma RefreshEntry(cfg: Config, s: Sys, e: Event, g: GroupKey, i: Id)
    requires Enabled(s, e) && Known(s) && (g, RefreshKey(i)) in Step(cfg, s, e).hist.regs
    ensures ((g, RefreshKey(i)) in s.hist.regs
             && Step(cfg, s, e).hist.regs[(g, RefreshKey(i))] == s.hist.regs[(g, RefreshKey(i))])
            || (e.Exec? && Entering(s.reqs[e.r]) && s.reqs[e.r].link.IdxAdd? && s.reqs[e.r].rid == i
                && s.reqs[e.r].rexp == Step(cfg, s, e).hist.regs[(g, RefreshKey(i))])
  {
  }

  lemma LastSecondStep(cfg: Config, s: Sys, e: Event)
    requires Known(s) && LastSecond(s) && Stamped(cfg, s) && Enabled(s, e)
    ensures LastSecond(Step(cfg, s, e))
  {
    var t := Step(cfg, s, e);
    forall g, i | (g, RefreshKey(i)) in t.hist.regs ensures EndsBy(t.db, i, t.hist.regs[(g, RefreshKey(i))]) {
      RefreshEntry(cfg, s, e, g, i);
      if e.Exec? { assert StampPc(cfg, s, s.reqs[e.r]) && KnownPc(s.hist, s.reqs[e.r]); }
      if (g, RefreshKey(i)) in s.hist.regs {
        assert KnownMember(s.hist, g, RefreshKey(i), s.hist.regs[(g, RefreshKey(i))]);
      }
      if HGetAll(t.db, i) != None { DeadlineStep(cfg, s, e, i); }
    }
  }

  lemma StampedStays(cfg: Config, s: Sys, e: Event, q: nat)
    requires Known(s) && Stamped(cfg, s) && Enabled(s, e) && q in s.reqs && (e.Exec? ==> e.r != q)
    ensures StampPc(cfg, Step(cfg, s, e), s.reqs[q])
  {
    var t := Step(cfg, s, e);
    var pc := s.reqs[q];
    assert StampPc(cfg, s, pc) && KnownPc(s.hist, pc);
    if Entering(pc) {
      if e.Exec? { assert Entering(s.reqs[e.r]) ==> s.reqs[e.r].rid != pc.rid; }
      if HGetAll(t.db, pc.rid) != None { DeadlineStep(cfg, s, e, pc.rid); }
      forall g | (g, RefreshKey(pc.rid)) in t.hist.regs ensures (g, RefreshKey(pc.rid)) in s.hist.regs {
        RefreshEntry(cfg, s, e, g, pc.rid);
      }
    }
  }

  /** A refresh token that has just been drawn is in no group yet. */
  lemma StampedDrawn(cfg: Config, s: Sys, r: nat, uuid: Id)
    requires Known(s) && r in s.reqs && uuid !in s.hist.ids && s.reqs[r].Link? && s.reqs[r].link.PutRec?
    ensures StampPc(cfg, Execute(cfg, s, r, uuid), Execute(cfg, s, r, uuid).reqs[r])
  {
    forall g ensures (g, RefreshKey(uuid)) !in s.hist.regs {
      assert (g, RefreshKey(uuid)) in s.hist.regs ==> KnownKey(s.hist, RefreshKey(uuid));
    }
  }

  /** The EXPIRE of a record puts its deadline one lifetime ahead. */
  lemma StampedExpire(cfg: Config, s: Sys, r: nat, uuid: Id)
    requires r in s.reqs && StampPc(cfg, s, s.reqs[r]) && s.reqs[r].Link? && s.reqs[r].link.RecTtl?
    ensures StampPc(cfg, Execute(cfg, s, r, uuid), Execute(cfg, s, r, uuid).reqs[r])
  {
  }

  lemma StampedNext(cfg: Config, s: Sys, r: nat, uuid: Id)
    requires Known(s) && Stamped(cfg, s) && r in s.reqs && uuid !in s.hist.ids
    ensures StampPc(cfg, Execute(cfg, s, r, uuid), Execute(cfg, s, r, uuid).reqs[r])
  {
    var pc := s.reqs[r];
    if pc.Link? && pc.link.PutRec? {
      StampedDrawn(cfg, s, r, uuid);
    } else if pc.Link? && pc.link.RecTtl? {
      StampedExpire(cfg, s, r, uuid);
    } else if pc.Link? {
      assert StampPc(cfg, s, pc) && KnownPc(s.hist, pc);
    }
  }

  lemma StampedStep(cfg: Config, s: Sys, e: Event)
    requires Known(s) && Stamped(cfg, s) && Enabled(s, e)
    ensures Stamped(cfg, Step(cfg, s, e))
  {
    var t := Step(cfg, s, e);
    forall q | q in t.reqs ensures StampPc(cfg, t, t.reqs[q]) {
      if e.Exec? && q == e.r {
        StampedNext(cfg, s, e.r, e.uuid);
      } else if q in s.reqs {
        StampedStays(cfg, s, e, q);
      }
    }
    OwnRidStep(cfg, s, e);
  }

  /** A request that enters a refresh token did so before, or has just drawn it. */
  lemma EnteringFrom(cfg: Config, s: Sys, e: Event, r: nat)
    requires Enabled(s, e) && r in Step(cfg, s, e).reqs && Entering(Step(cfg, s, e).reqs[r])
    ensures r in s.reqs
    ensures (Entering(s.reqs[r]) && s.reqs[r].rid == Step(cfg, s, e).reqs[r].rid)
            || (e.Exec? && e.r == r && Step(cfg, s, e).reqs[r].rid == e.uuid)
  {
  }

  lemma OwnRidStep(cfg: Config, s: Sys, e: Event)
    requires KnownReqs(s) && OwnRid(s.reqs) && Enabled(s, e)
    ensures OwnRid(Step(cfg, s, e).reqs)
  {
    var t := Step(cfg, s, e);
    forall p, q | p in t.reqs && q in t.reqs && Entering(t.reqs[p]) && Entering(t.reqs[q]) && p != q
      ensures t.reqs[p].rid != t.reqs[q].rid
    {
      EnteringFrom(cfg, s, e, p);
      EnteringFrom(cfg, s, e, q);
      assert KnownPc(s.hist, s.reqs[p]) && KnownPc(s.hist, s.reqs[q]);
    }
  }

  /** What is in the store has not expired. */
  ghost predicate Unexpired(db: Db, now: nat) {
    forall i :: i in db.hashes ==> !db.hashes[i].deadline.Passed(now)
  }

  lemma UnexpiredStep(cfg: Config, s: Sys, e: Event)
    requires Unexpired(s.db, s.now) && Enabled(s, e)
    ensures Unexpired(Step(cfg, s, e).db, Step(cfg, s, e).now)
  {
    if e.Exec? { UnexpiredApply(Command(cfg, s.reqs[e.r], e.uuid), s.db, s.now); }
  }

  lemma UnexpiredApply(cmd: Cmd, db: Db, now: nat)
    requires Unexpired(db, now)
    ensures Unexpired(Apply(cmd, db, now), now)
  {
  }

  ghost predicate RecordsInv(cfg: Config, s: Sys) {
    Unexpired(s.db, s.now) && Entered(s) && HandedEntered(s) && LastSecond(s) && Stamped(cfg, s)
  }

  lemma RecordsStep(cfg: Config, s: Sys, e: Event)
    requires Known(s) && Bound(s) && RecordsInv(cfg, s) && Enabled(s, e)
    ensures RecordsInv(cfg, Step(cfg, s, e))
  {
    UnexpiredStep(cfg, s, e);
    EnteredStep(cfg, s, e);
    HandedStep(cfg, s, e);
    LastSecondStep(cfg, s, e);
    StampedStep(cfg, s, e);
  }
}
