/** What every reachable state of the step machine keeps. */
module ProtocolInv {
  import opened Common
  import opened Redis
  import opened Claims
  import opened Protocol

  // ---------- identifiers ----------

  ghost predicate KnownJob(h: Hist, job: Job) {
    job.claims.jti in h.tokens && h.tokens[job.claims.jti] == job.claims
  }

  ghost predicate KnownPc(h: Hist, pc: Pc) {
    match pc
    case GetRec(id, _) => id in h.ids
    case Mark(id, rec, _) => id in h.ids && rec.family in h.ids
    case Build(plan) => KnownFamily(h, plan.family)
    case PutJti(_, _, family) => KnownFamily(h, family)
    case Enrol(_, job, family) => KnownJob(h, job) && KnownFamily(h, family)
    case Link(step, job, f, rid, _) => KnownJob(h, job) && f in h.ids && (HasRid(step) ==> rid in h.ids)
    case Sweep(step, _, _, members) =>
      (step.DelMembers? ==> forall k :: k in members ==> KnownKey(h, k) && (k.JtiKey? || k.RefreshKey?))
      && (step.DelGroup? ==> members <= h.removed)
    case _ => true
  }

  ghost predicate KnownFamily(h: Hist, family: Option<Id>) {
    family.Some? ==> family.value in h.ids
  }

  /** The refresh token of the pair has been drawn. */
  predicate HasRid(step: LinkStep) {
    step.RecTtl? || step.Stamp? || step.IdxAdd? || step.IdxTtl?
  }

  ghost predicate KnownKey(h: Hist, k: Key) {
    (k.JtiKey? ==> k.jti in h.ids) && (k.RefreshKey? ==> k.id in h.ids)
  }

  ghost predicate KnownMember(h: Hist, g: GroupKey, m: Key, score: nat) {
    KnownKey(h, m)
    && (m.JtiKey? || m.RefreshKey?)
    && (m.JtiKey? ==> m.jti in h.tokens && h.tokens[m.jti].exp == score)
    && (g.FamilyGroup? ==> g.family in h.ids)
    && (g.SubjectGroup? ==> m.JtiKey?)
  }

  ghost predicate KnownHist(h: Hist) {
    (forall j :: j in h.tokens ==> j in h.ids && h.tokens[j].jti == j)
    && h.handed <= h.ids
    && (forall k :: k in h.removed ==> KnownKey(h, k))
    && (forall g, m :: (g, m) in h.regs ==> KnownMember(h, g, m, h.regs[(g, m)]))
  }

  ghost predicate KnownHash(h: Hist, i: Id, hash: Hash) {
    i in h.ids && (hash.record.Some? ==> hash.record.value.family in h.ids)
  }

  ghost predicate KnownKeys(h: Hist, db: Db) {
    (forall j :: j in db.jtis ==> j in h.tokens)
    && (forall i :: i in db.hashes ==> KnownHash(h, i, db.hashes[i]))
  }

  ghost predicate KnownGroup(h: Hist, g: GroupKey, group: Group) {
    forall m :: m in group.scores ==> (g, m) in h.regs && h.regs[(g, m)] == group.scores[m]
  }

  /** Every member of a live group is there because a ZADD put it there with that score. */
  ghost predicate KnownScores(h: Hist, db: Db) {
    forall g :: g in db.groups ==> KnownGroup(h, g, db.groups[g])
  }

  ghost predicate KnownReqs(s: Sys) {
    forall r :: r in s.reqs ==> KnownPc(s.hist, s.reqs[r])
  }

  /** No identifier is used that was not drawn or named before. */
  ghost predicate Known(s: Sys) {
    KnownHist(s.hist) && KnownKeys(s.hist, s.db) && KnownScores(s.hist, s.db) && KnownReqs(s)
  }

  /** What a command must bring along for `Known` to survive it. */
  ghost predicate KnownCmd(h: Hist, cmd: Cmd) {
    (cmd.CmdSetEx? ==> cmd.jti !in h.ids)
    && (cmd.CmdZAdd? ==> KnownMember(h, cmd.g, cmd.member, cmd.score))
    && (cmd.CmdHSet? ==> cmd.id !in h.ids && cmd.record.family in h.ids)
    && (cmd.CmdHSetNx? ==> cmd.id in h.ids)
  }

  lemma KnownCommand(cfg: Config, h: Hist, pc: Pc, uuid: Id)
    requires KnownHist(h) && KnownPc(h, pc) && uuid !in h.ids
    ensures KnownCmd(h, Command(cfg, pc, uuid))
  {
  }

  lemma KnownHistNote(h: Hist, cmd: Cmd, draft: TokenClaims)
    requires KnownHist(h) && KnownCmd(h, cmd)
    ensures KnownHist(Note(h, cmd, draft))
  {
    var h' := Note(h, cmd, draft);
    forall g, m | (g, m) in h'.regs ensures KnownMember(h', g, m, h'.regs[(g, m)]) {
      if (g, m) in h.regs { assert KnownMember(h, g, m, h.regs[(g, m)]); }
    }
  }

  lemma KnownKeysApply(h: Hist, cmd: Cmd, draft: TokenClaims, db: Db, now: nat)
    requires KnownKeys(h, db) && KnownCmd(h, cmd)
    ensures KnownKeys(Note(h, cmd, draft), Apply(cmd, db, now))
  {
    var h', db' := Note(h, cmd, draft), Apply(cmd, db, now);
    forall i | i in db'.hashes ensures KnownHash(h', i, db'.hashes[i]) {
      if i in db.hashes { assert KnownHash(h, i, db.hashes[i]); }
    }
  }

  /** What a step may do to the bookkeeping: only ever add to it. */
  ghost predicate Grows(h: Hist, h': Hist) {
    h.ids <= h'.ids && h.handed <= h'.handed && h.removed <= h'.removed && h.flawed <= h'.flawed
    && (forall j :: j in h.tokens ==> j in h'.tokens && h'.tokens[j] == h.tokens[j])
    && (forall x :: x in h.regs ==> x in h'.regs)
  }

  lemma KnownScoresApply(h: Hist, cmd: Cmd, draft: TokenClaims, db: Db, now: nat)
    requires KnownScores(h, db)
    ensures KnownScores(Note(h, cmd, draft), Apply(cmd, db, now))
  {
    var h', db' := Note(h, cmd, draft), Apply(cmd, db, now);
    forall g | g in db'.groups ensures KnownGroup(h', g, db'.groups[g]) {
      KnownGroupApply(h, cmd, draft, db, now, g);
    }
  }

  lemma KnownGroupApply(h: Hist, cmd: Cmd, draft: TokenClaims, db: Db, now: nat, g: GroupKey)
    requires KnownScores(h, db) && g in Apply(cmd, db, now).groups
    ensures KnownGroup(Note(h, cmd, draft), g, Apply(cmd, db, now).groups[g])
  {
    if g in db.groups { assert KnownGroup(h, g, db.groups[g]); }
  }

  lemma KnownPcGrows(h: Hist, h': Hist, pc: Pc)
    requires KnownPc(h, pc) && Grows(h, h')
    ensures KnownPc(h', pc)
  {
  }

  lemma GrowsExec(cfg: Config, s: Sys, pc: Pc, uuid: Id)
    requires KnownHist(s.hist) && uuid !in s.hist.ids
    ensures Grows(s.hist, Record(cfg, s, pc, uuid))
  {
  }

  lemma KnownNextMembers(h: Hist, h': Hist, db: Db, g: GroupKey)
    requires KnownHist(h) && KnownScores(h, db) && h.ids <= h'.ids
    ensures forall k :: k in ZRange(db, g) ==> KnownKey(h', k) && (k.JtiKey? || k.RefreshKey?)
  {
    forall k | k in ZRange(db, g) ensures KnownKey(h', k) && (k.JtiKey? || k.RefreshKey?) {
      assert KnownGroup(h, g, db.groups[g]);
      assert KnownMember(h, g, k, h.regs[(g, k)]);
    }
  }

  /** The request's next program counter is known, in terms of what its command adds. */
  lemma KnownNext(cfg: Config, s: Sys, pc: Pc, uuid: Id, h': Hist)
    requires KnownHist(s.hist) && KnownKeys(s.hist, s.db) && KnownScores(s.hist, s.db)
    requires KnownPc(s.hist, pc) && uuid !in s.hist.ids && Grows(s.hist, h')
    requires pc.PutJti? && pc.ttl != 0 ==> uuid in h'.tokens && h'.tokens[uuid] == pc.draft.(jti := uuid)
    requires pc.Link? && pc.link.PutRec? ==> uuid in h'.ids
    requires pc.Sweep? && pc.sweep.DelMembers? ==> pc.members <= h'.removed
    ensures KnownPc(h', Next(cfg, pc, s.db, s.now, uuid))
  {
    if pc.Sweep? && pc.sweep.Range? {
      KnownNextMembers(s.hist, h', s.db, pc.g);
    } else if pc.GetRec? {
      if pc.id in s.db.hashes { assert KnownHash(s.hist, pc.id, s.db.hashes[pc.id]); }
    } else {
      KnownNextQuiet(cfg, s.hist, h', s.db, s.now, pc, uuid);
    }
  }

  lemma KnownNextQuiet(cfg: Config, h: Hist, h': Hist, db: Db, now: nat, pc: Pc, uuid: Id)
    requires KnownPc(h, pc) && Grows(h, h') && !(pc.Sweep? && pc.sweep.Range?) && !pc.GetRec?
    requires pc.PutJti? && pc.ttl != 0 ==> uuid in h'.tokens && h'.tokens[uuid] == pc.draft.(jti := uuid)
    requires pc.Link? && pc.link.PutRec? ==> uuid in h'.ids
    requires pc.Sweep? && pc.sweep.DelMembers? ==> pc.members <= h'.removed
    ensures KnownPc(h', Next(cfg, pc, db, now, uuid))
  {
    KnownPcGrows(h, h', pc);
  }

  lemma KnownExec(cfg: Config, s: Sys, r: nat, uuid: Id)
    requires Known(s) && r in s.reqs && uuid !in s.hist.ids
    ensures Known(Execute(cfg, s, r, uuid)) && Grows(s.hist, Execute(cfg, s, r, uuid).hist)
  {
    var pc := s.reqs[r];
    var t := Execute(cfg, s, r, uuid);
    assert KnownPc(s.hist, pc);
    var cmd, draft := Command(cfg, pc, uuid), if pc.PutJti? then pc.draft else NO_CLAIMS;
    var h := Note(s.hist, cmd, draft);
    KnownCommand(cfg, s.hist, pc, uuid);
    KnownHistNote(s.hist, cmd, draft);
    KnownKeysApply(s.hist, cmd, draft, s.db, s.now);
    KnownScoresApply(s.hist, cmd, draft, s.db, s.now);
    KnownSettled(h, t.hist, t.db);
    GrowsExec(cfg, s, pc, uuid);
    KnownNext(cfg, s, pc, uuid, t.hist);
    forall q | q in t.reqs ensures KnownPc(t.hist, t.reqs[q]) {
      if q != r { KnownPcGrows(s.hist, t.hist, s.reqs[q]); }
    }
  }

  /** `flawed` and `handed` do not matter to what is known, within the identifiers drawn. */
  lemma KnownSettled(h: Hist, h': Hist, db: Db)
    requires h'.(flawed := h.flawed, handed := h.handed) == h && h'.handed <= h'.ids
    requires KnownHist(h) && KnownKeys(h, db) && KnownScores(h, db)
    ensures KnownHist(h') && KnownKeys(h', db) && KnownScores(h', db)
  {
    forall g, m | (g, m) in h'.regs ensures KnownMember(h', g, m, h'.regs[(g, m)]) {
      assert KnownMember(h, g, m, h.regs[(g, m)]);
    }
    forall i | i in db.hashes ensures KnownHash(h', i, db.hashes[i]) {
      assert KnownHash(h, i, db.hashes[i]);
    }
    forall g | g in db.groups ensures KnownGroup(h', g, db.groups[g]) {
      assert KnownGroup(h, g, db.groups[g]);
    }
  }

  lemma KnownStep(cfg: Config, s: Sys, e: Event)
    requires Known(s) && Enabled(s, e)
    ensures Known(Step(cfg, s, e)) && Grows(s.hist, Step(cfg, s, e).hist)
  {
    var t := Step(cfg, s, e);
    if e.Exec? {
      KnownExec(cfg, s, e.r, e.uuid);
    } else {
      assert Grows(s.hist, t.hist);
      KnownWider(s.hist, t.hist, s.db, t.db);
      forall q | q in t.reqs ensures KnownPc(t.hist, t.reqs[q]) {
        if q in s.reqs && t.reqs[q] == s.reqs[q] { KnownPcGrows(s.hist, t.hist, s.reqs[q]); }
      }
    }
  }

  lemma KnownWider(h: Hist, h': Hist, db: Db, db': Db)
    requires KnownHist(h) && KnownKeys(h, db) && KnownScores(h, db)
    requires Grows(h, h') && h'.tokens == h.tokens && h'.regs == h.regs && h'.removed == h.removed && h'.handed <= h'.ids
    requires (forall j :: j in db'.jtis ==> j in db.jtis)
    requires (forall i :: i in db'.hashes ==> i in db.hashes && db'.hashes[i] == db.hashes[i])
    requires (forall g :: g in db'.groups ==> g in db.groups && db'.groups[g] == db.groups[g])
    ensures KnownHist(h') && KnownKeys(h', db') && KnownScores(h', db')
  {
    forall g, m | (g, m) in h'.regs ensures KnownMember(h', g, m, h'.regs[(g, m)]) {
      assert KnownMember(h, g, m, h.regs[(g, m)]);
    }
    forall i | i in db'.hashes ensures KnownHash(h', i, db'.hashes[i]) {
      assert KnownHash(h, i, db.hashes[i]);
    }
    forall g | g in db'.groups ensures KnownGroup(h', g, db'.groups[g]) {
      assert KnownGroup(h, g, db.groups[g]);
    }
  }

  // ---------- clock readings ----------

  ghost predicate ClockPc(cfg: Config, now: nat, pc: Pc) {
    match pc
    case PutJti(draft, ttl, _) =>
      draft.exp <= Secs(now) + ttl && draft.iat <= Secs(now) && draft.nbf <= Secs(now)
    case Enrol(_, job, _) => job.claims.exp <= Secs(now) + job.ttl
    case Link(step, job, _, _, rexp) =>
      job.claims.exp <= Secs(now) + job.ttl
      && (step.IdxAdd? || step.IdxTtl? ==> rexp <= Secs(now) + cfg.refreshTtl)
    case Sweep(step, _, cutoff, _) => step.Cut? ==> cutoff <= Secs(now)
    case _ => true
  }

  /** No request holds a time stamp from the future. */
  ghost predicate Clocked(cfg: Config, s: Sys) {
    forall r :: r in s.reqs ==> ClockPc(cfg, s.now, s.reqs[r])
  }

  lemma ClockLater(cfg: Config, now: nat, later: nat, pc: Pc)
    requires ClockPc(cfg, now, pc) && now <= later
    ensures ClockPc(cfg, later, pc)
  {
    assert Secs(now) <= Secs(later);
  }

  /** A command leaves a request with a time stamp of the present. */
  lemma ClockNext(cfg: Config, pc: Pc, db: Db, now: nat, uuid: Id)
    requires ClockPc(cfg, now, pc)
    ensures ClockPc(cfg, now, Next(cfg, pc, db, now, uuid))
  {
  }

  lemma ClockStep(cfg: Config, s: Sys, e: Event)
    requires Clocked(cfg, s) && Enabled(s, e)
    ensures Clocked(cfg, Step(cfg, s, e))
  {
    var t := Step(cfg, s, e);
    forall q | q in t.reqs ensures ClockPc(cfg, t.now, t.reqs[q]) {
      if e.Exec? && q == e.r {
        ClockNext(cfg, s.reqs[q], s.db, s.now, e.uuid);
      } else if q in s.reqs && t.reqs[q] == s.reqs[q] {
        ClockLater(cfg, s.now, t.now, s.reqs[q]);
      }
    }
  }

  // ---------- access tokens: the jti record is the token's life ----------

  ghost predicate TokenExact(s: Sys, j: Id)
    requires j in s.hist.tokens
  {
    var c := s.hist.tokens[j];
    c.iat <= Secs(s.now) && c.nbf <= Secs(s.now)
    && (JtiKey(j) in s.hist.removed ==> j !in s.db.jtis)
    && (JtiKey(j) !in s.hist.removed && Secs(s.now) < c.exp ==> j in s.db.jtis)
    && (j in s.db.jtis ==> c.exp * MILLIS <= s.db.jtis[j])
  }

  ghost predicate TokensExact(s: Sys) {
    forall j :: j in s.hist.tokens ==> TokenExact(s, j)
  }

  lemma TokensStep(cfg: Config, s: Sys, e: Event)
    requires Known(s) && Clocked(cfg, s) && TokensExact(s) && Enabled(s, e)
    ensures TokensExact(Step(cfg, s, e))
  {
    var t := Step(cfg, s, e);
    forall j | j in t.hist.tokens ensures TokenExact(t, j) {
      if e.Exec? { TokensExec(cfg, s, e.r, e.uuid, j); } else { assert TokenExact(s, j); }
    }
  }

  lemma TokensExec(cfg: Config, s: Sys, r: nat, uuid: Id, j: Id)
    requires Known(s) && Clocked(cfg, s) && TokensExact(s) && r in s.reqs && uuid !in s.hist.ids
    requires j in Execute(cfg, s, r, uuid).hist.tokens
    ensures TokenExact(Execute(cfg, s, r, uuid), j)
  {
    var pc := s.reqs[r];
    var cmd := Command(cfg, pc, uuid);
    assert ClockPc(cfg, s.now, pc);
    ApplyJti(cmd, s.db, s.now, j);
    if cmd.CmdSetEx? && j == uuid {
      assert JtiKey(j) !in s.hist.removed by { assert !KnownKey(s.hist, JtiKey(j)); }
    } else {
      assert TokenExact(s, j);
    }
  }

  // ---------- refresh records: a deleted record stays deleted ----------

  /** A refresh token named in a DEL has no record any more: what HSETNX may put in its place
    * carries `used` only, and `HGetAll` reads that as absent. */
  ghost predicate DeadRecords(s: Sys) {
    forall i :: RefreshKey(i) in s.hist.removed ==> HGetAll(s.db, i) == None
  }

  lemma DeadExec(cfg: Config, s: Sys, r: nat, uuid: Id, i: Id)
    requires Known(s) && DeadRecords(s) && r in s.reqs && uuid !in s.hist.ids
    requires RefreshKey(i) in Execute(cfg, s, r, uuid).hist.removed
    ensures HGetAll(Execute(cfg, s, r, uuid).db, i) == None
  {
    ApplyRecord(Command(cfg, s.reqs[r], uuid), s.db, s.now, i);
    if RefreshKey(i) in s.hist.removed {
      assert KnownKey(s.hist, RefreshKey(i));
    }
  }

  lemma DeadStep(cfg: Config, s: Sys, e: Event)
    requires Known(s) && DeadRecords(s) && Enabled(s, e)
    ensures DeadRecords(Step(cfg, s, e))
  {
    var t := Step(cfg, s, e);
    forall i | RefreshKey(i) in t.hist.removed ensures HGetAll(t.db, i) == None {
      if e.Exec? { DeadExec(cfg, s, e.r, e.uuid, i); } else { assert HGetAll(s.db, i) == None; }
    }
  }
}
