/** A group that is not flawed indexes every one of its members that is still alive. */
module ProtocolCover {
  import opened Common
  import opened Redis
  import opened Claims
  import opened Protocol
  import opened ProtocolInv
  import opened ProtocolFamily
  import opened ProtocolRecords

  /** A member still has its store record. */
  ghost predicate Alive(db: Db, m: Key) {
    match m
    case JtiKey(j) => j in db.jtis
    case RefreshKey(i) => HGetAll(db, i) != None
    case _ => false
  }

  /** The score `g` keeps for `m`, if a ZADD ever entered it. */
  ghost predicate Registered(s: Sys, g: GroupKey, m: Key) {
    (g, m) in s.hist.regs && g !in s.hist.flawed
  }

  ghost predicate CoveredAt(s: Sys, g: GroupKey, m: Key)
    requires Registered(s, g, m)
  {
    Alive(s.db, m) && Secs(s.now) < s.hist.regs[(g, m)] ==> m in ZRange(s.db, g)
  }

  /** Every live member of an unflawed group whose score is in the future is in the index. */
  ghost predicate Covered(s: Sys) {
    forall g, m :: Registered(s, g, m) ==> CoveredAt(s, g, m)
  }

  /** `m` was entered into `g` and the EXPIREAT that will cover it is still to come. */
  predicate PendingPc(pc: Pc, g: GroupKey, m: Key) {
    Window(pc) == Some(g) && (pc.Enrol? ==> m == JtiKey(pc.job.claims.jti))
  }

  ghost predicate LastsAt(s: Sys, g: GroupKey, m: Key)
    requires Registered(s, g, m)
  {
    g in s.db.groups ==>
      s.db.groups[g].deadline.Covers(s.hist.regs[(g, m)]) || exists r :: r in s.reqs && PendingPc(s.reqs[r], g, m)
  }

  /** The index outlives its live members, except while a request is in the middle of entering one. */
  ghost predicate Lasts(s: Sys) {
    forall g, m :: Registered(s, g, m) && Alive(s.db, m) ==> LastsAt(s, g, m)
  }

  /** No member of an unflawed family outlives a refresh token issued now. */
  ghost predicate Bounded(cfg: Config, s: Sys) {
    forall f, m :: Registered(s, FamilyGroup(f), m) ==>
      s.hist.regs[(FamilyGroup(f), m)] <= Secs(s.now) + cfg.refreshTtl
  }

  ghost predicate TopPc(s: Sys, pc: Pc) {
    pc.Link? && (pc.link.IdxAdd? || pc.link.IdxTtl?) ==>
      forall m :: Registered(s, FamilyGroup(pc.f), m) ==> s.hist.regs[(FamilyGroup(pc.f), m)] <= pc.rexp
  }

  /** A refresh token being entered expires no earlier than the rest of its unflawed family. */
  ghost predicate Topped(s: Sys) {
    forall r :: r in s.reqs ==> TopPc(s, s.reqs[r])
  }

  ghost predicate CoverInv(cfg: Config, s: Sys) {
    Covered(s) && Lasts(s) && Bounded(cfg, s) && Topped(s)
  }

  ghost predicate Inv(cfg: Config, s: Sys) {
    Known(s) && Clocked(cfg, s) && TokensExact(s) && DeadRecords(s) && FamilyInv(s) && CoverInv(cfg, s)
    && RecordsInv(cfg, s)
  }

  // ---------- bounds ----------

  /** The entry a command adds to the index, and what is known of it. */
  lemma NewEntry(cfg: Config, s: Sys, e: Event, g: GroupKey, m: Key)
    requires Enabled(s, e) && (g, m) in Step(cfg, s, e).hist.regs
    ensures ((g, m) in s.hist.regs && Step(cfg, s, e).hist.regs[(g, m)] == s.hist.regs[(g, m)])
            || (e.Exec? && Command(cfg, s.reqs[e.r], e.uuid) == CmdZAdd(g, m, Step(cfg, s, e).hist.regs[(g, m)]))
  {
  }

  /** A ZADD into a family comes from a request issuing into it. */
  lemma FamilyZAdd(cfg: Config, s: Sys, r: nat, uuid: Id, f: Id, m: Key, score: nat)
    requires r in s.reqs && Clocked(cfg, s) && Command(cfg, s.reqs[r], uuid) == CmdZAdd(FamilyGroup(f), m, score)
    ensures Issuing(s.reqs[r]) == Some(f)
    ensures score <= Secs(s.now) + cfg.refreshTtl || FamilyGroup(f) in Execute(cfg, s, r, uuid).hist.flawed
    ensures s.reqs[r].Link? && (s.reqs[r].link.FamAdd? || (s.reqs[r].link.IdxAdd? && s.reqs[r].rexp == score))
  {
    assert ClockPc(cfg, s.now, s.reqs[r]);
  }

  lemma BoundedStep(cfg: Config, s: Sys, e: Event)
    requires Clocked(cfg, s) && Bounded(cfg, s) && Enabled(s, e)
    ensures Bounded(cfg, Step(cfg, s, e))
  {
    var t := Step(cfg, s, e);
    forall f, m | Registered(t, FamilyGroup(f), m)
      ensures t.hist.regs[(FamilyGroup(f), m)] <= Secs(t.now) + cfg.refreshTtl
    {
      NewEntry(cfg, s, e, FamilyGroup(f), m);
      assert Secs(s.now) <= Secs(t.now);
      if e.Exec? && Command(cfg, s.reqs[e.r], e.uuid) == CmdZAdd(FamilyGroup(f), m, t.hist.regs[(FamilyGroup(f), m)]) {
        FamilyZAdd(cfg, s, e.r, e.uuid, f, m, t.hist.regs[(FamilyGroup(f), m)]);
      } else {
        assert Registered(s, FamilyGroup(f), m);
      }
    }
  }

  lemma ToppedStep(cfg: Config, s: Sys, e: Event)
    requires Clocked(cfg, s) && Linear(s) && Bounded(cfg, s) && Topped(s) && Enabled(s, e)
    ensures Topped(Step(cfg, s, e))
  {
    var t := Step(cfg, s, e);
    forall q | q in t.reqs ensures TopPc(t, t.reqs[q]) {
      var pc := t.reqs[q];
      if pc.Link? && (pc.link.IdxAdd? || pc.link.IdxTtl?) {
        forall m | Registered(t, FamilyGroup(pc.f), m) ensures t.hist.regs[(FamilyGroup(pc.f), m)] <= pc.rexp {
          ToppedAt(cfg, s, e, q, m);
        }
      }
    }
  }

  /** A request that is about to enter its refresh token was in flight before the event too. */
  lemma ToppedBefore(cfg: Config, s: Sys, e: Event, q: nat)
    requires Topped(s) && Enabled(s, e) && q in Step(cfg, s, e).reqs
    requires var pc := Step(cfg, s, e).reqs[q]; pc.Link? && (pc.link.IdxAdd? || pc.link.IdxTtl?)
    ensures var pc := Step(cfg, s, e).reqs[q];
      q in s.reqs && Holds(s, pc.f, InFlight(q)) && TopPc(s, s.reqs[q])
      && s.reqs[q].Link? && s.reqs[q].f == pc.f
      && (if s.reqs[q].link.Stamp? then pc.rexp == Secs(s.now) + cfg.refreshTtl
          else s.reqs[q].rexp == pc.rexp && (s.reqs[q].link.IdxAdd? || s.reqs[q].link.IdxTtl?))
  {
  }

  lemma ToppedAt(cfg: Config, s: Sys, e: Event, q: nat, m: Key)
    requires Clocked(cfg, s) && Linear(s) && Bounded(cfg, s) && Topped(s) && Enabled(s, e)
    requires q in Step(cfg, s, e).reqs
    requires var pc := Step(cfg, s, e).reqs[q];
      pc.Link? && (pc.link.IdxAdd? || pc.link.IdxTtl?) && Registered(Step(cfg, s, e), FamilyGroup(pc.f), m)
    ensures var pc := Step(cfg, s, e).reqs[q];
      Step(cfg, s, e).hist.regs[(FamilyGroup(pc.f), m)] <= pc.rexp
  {
    var t := Step(cfg, s, e);
    var f := t.reqs[q].f;
    ToppedBefore(cfg, s, e, q);
    NewEntry(cfg, s, e, FamilyGroup(f), m);
    if e.Exec? && Command(cfg, s.reqs[e.r], e.uuid) == CmdZAdd(FamilyGroup(f), m, t.hist.regs[(FamilyGroup(f), m)]) {
      FamilyZAdd(cfg, s, e.r, e.uuid, f, m, t.hist.regs[(FamilyGroup(f), m)]);
      assert Holds(s, f, InFlight(e.r));
      assert InFlight(e.r) == InFlight(q);
    } else {
      assert Registered(s, FamilyGroup(f), m);
    }
  }

  // ---------- coverage ----------

  lemma AliveBefore(cfg: Config, s: Sys, e: Event, m: Key)
    requires Enabled(s, e) && KnownKey(s.hist, m) && Alive(Step(cfg, s, e).db, m)
    ensures Alive(s.db, m)
  {
    if e.Exec? {
      var cmd := Command(cfg, s.reqs[e.r], e.uuid);
      if m.JtiKey? { ApplyJti(cmd, s.db, s.now, m.jti); }
      if m.RefreshKey? { ApplyRecord(cmd, s.db, s.now, m.id); }
    }
  }

  /** A command that drops a group only drops members that are dead or past their score. */
  lemma DropsOnlyDead(cfg: Config, s: Sys, r: nat, uuid: Id, g: GroupKey, m: Key)
    requires Known(s) && Clocked(cfg, s) && TokensExact(s) && DeadRecords(s) && Topped(s) && r in s.reqs && Registered(s, g, m) && g !in Execute(cfg, s, r, uuid).hist.flawed
    requires Alive(s.db, m) && Secs(s.now) < s.hist.regs[(g, m)] && m in ZRange(s.db, g)
    ensures m in ZRange(Execute(cfg, s, r, uuid).db, g)
  {
    var pc := s.reqs[r];
    var cmd := Command(cfg, pc, uuid);
    assert KnownPc(s.hist, pc) && ClockPc(cfg, s.now, pc) && TopPc(s, pc);
    assert KnownGroup(s.hist, g, s.db.groups[g]) && KnownMember(s.hist, g, m, s.hist.regs[(g, m)]);
    if cmd.CmdExpireAt? && cmd.g == g { LateDeadline(cfg, s, r, uuid, g, m); }
    if cmd.CmdDel? && GroupName(g) in cmd.keys { DeletedGroup(cfg, s, r, uuid, g, m); assert false; }
    ApplyRange(cmd, s.db, s.now, g, m);
  }

  /** An EXPIREAT that deletes an unflawed group comes after every score in it. */
  lemma LateDeadline(cfg: Config, s: Sys, r: nat, uuid: Id, g: GroupKey, m: Key)
    requires r in s.reqs && Registered(s, g, m) && g !in Execute(cfg, s, r, uuid).hist.flawed && TopPc(s, s.reqs[r])
    requires Secs(s.now) < s.hist.regs[(g, m)] && Alive(s.db, m) && KnownMember(s.hist, g, m, s.hist.regs[(g, m)])
    requires Command(cfg, s.reqs[r], uuid).CmdExpireAt? && Command(cfg, s.reqs[r], uuid).g == g
    ensures s.now < Command(cfg, s.reqs[r], uuid).sec * MILLIS
  {
    var pc := s.reqs[r];
    assert pc.Enrol? ==> s.hist.regs[(g, m)] <= pc.job.claims.exp;
  }

  lemma DeletedGroup(cfg: Config, s: Sys, r: nat, uuid: Id, g: GroupKey, m: Key)
    requires r in s.reqs && KnownPc(s.hist, s.reqs[r]) && TokensExact(s) && DeadRecords(s)
    requires g !in Execute(cfg, s, r, uuid).hist.flawed && m in ZRange(s.db, g)
    requires (g, m) in s.hist.regs && KnownMember(s.hist, g, m, s.hist.regs[(g, m)])
    requires Command(cfg, s.reqs[r], uuid).CmdDel? && GroupName(g) in Command(cfg, s.reqs[r], uuid).keys
    ensures !Alive(s.db, m)
  {
    var pc := s.reqs[r];
    assert pc.Sweep? && pc.sweep.DelGroup? && m in pc.members && m in s.hist.removed;
    if m.JtiKey? { assert TokenExact(s, m.jti); }
  }

  lemma CoveredExec(cfg: Config, s: Sys, r: nat, uuid: Id, g: GroupKey, m: Key)
    requires Inv(cfg, s) && r in s.reqs && uuid !in s.hist.ids && Registered(Execute(cfg, s, r, uuid), g, m)
    ensures CoveredAt(Execute(cfg, s, r, uuid), g, m)
  {
    var e := Exec(r, uuid);
    var t := Execute(cfg, s, r, uuid);
    NewEntry(cfg, s, e, g, m);
    if Alive(t.db, m) && Secs(t.now) < t.hist.regs[(g, m)] {
      if Command(cfg, s.reqs[r], uuid) != CmdZAdd(g, m, t.hist.regs[(g, m)]) {
        assert Registered(s, g, m) && KnownMember(s.hist, g, m, s.hist.regs[(g, m)]);
        AliveBefore(cfg, s, e, m);
        assert CoveredAt(s, g, m);
        DropsOnlyDead(cfg, s, r, uuid, g, m);
      }
    }
  }

  lemma CoveredElapse(cfg: Config, s: Sys, d: nat, g: GroupKey, m: Key)
    requires Inv(cfg, s) && Registered(Elapse(s, d), g, m)
    ensures CoveredAt(Elapse(s, d), g, m)
  {
    var t := Elapse(s, d);
    assert Registered(s, g, m) && CoveredAt(s, g, m);
    assert Secs(s.now) <= Secs(t.now);
    if Alive(t.db, m) {
      assert Alive(s.db, m) && LastsAt(s, g, m);
    }
  }

  lemma CoveredStep(cfg: Config, s: Sys, e: Event)
    requires Inv(cfg, s) && Enabled(s, e)
    ensures Covered(Step(cfg, s, e))
  {
    var t := Step(cfg, s, e);
    forall g, m | Registered(t, g, m) ensures CoveredAt(t, g, m) {
      match e
      case Exec(r, uuid) => CoveredExec(cfg, s, r, uuid, g, m);
      case Tick(d) => CoveredElapse(cfg, s, d, g, m);
      case _ => assert Registered(s, g, m) && CoveredAt(s, g, m);
    }
  }

  // ---------- deadlines ----------

  lemma LastsExec(cfg: Config, s: Sys, r: nat, uuid: Id, g: GroupKey, m: Key)
    requires Known(s) && Lasts(s) && Topped(s) && r in s.reqs && uuid !in s.hist.ids
    requires Registered(Execute(cfg, s, r, uuid), g, m) && Alive(Execute(cfg, s, r, uuid).db, m)
    ensures LastsAt(Execute(cfg, s, r, uuid), g, m)
  {
    var e := Exec(r, uuid);
    var t := Execute(cfg, s, r, uuid);
    var pc := s.reqs[r];
    var cmd := Command(cfg, pc, uuid);
    NewEntry(cfg, s, e, g, m);
    if g in t.db.groups {
      ApplyDeadline(cmd, s.db, s.now, g);
      if cmd == CmdZAdd(g, m, t.hist.regs[(g, m)]) {
        assert PendingPc(t.reqs[r], g, m);
      } else {
        assert Registered(s, g, m) && KnownMember(s.hist, g, m, s.hist.regs[(g, m)]);
        AliveBefore(cfg, s, e, m);
        assert LastsAt(s, g, m) && TopPc(s, pc);
        LastsOld(cfg, s, r, uuid, g, m);
      }
    }
  }

  /** An EXPIREAT that ends the window of an unflawed group covers every live member. */
  lemma EntryCovers(cfg: Config, s: Sys, r: nat, uuid: Id, g: GroupKey, m: Key)
    requires r in s.reqs && Registered(s, g, m) && Alive(s.db, m) && TopPc(s, s.reqs[r])
    requires KnownMember(s.hist, g, m, s.hist.regs[(g, m)])
    requires g !in Execute(cfg, s, r, uuid).hist.flawed && g in Execute(cfg, s, r, uuid).db.groups
    requires Window(s.reqs[r]) == Some(g) && (s.reqs[r].Enrol? || s.reqs[r].link.IdxTtl?)
    ensures Execute(cfg, s, r, uuid).db.groups[g].deadline.Covers(s.hist.regs[(g, m)])
  {
    ApplyDeadline(Command(cfg, s.reqs[r], uuid), s.db, s.now, g);
  }

  /** An entry that was there before stays covered or pending. */
  lemma LastsOld(cfg: Config, s: Sys, r: nat, uuid: Id, g: GroupKey, m: Key)
    requires r in s.reqs && Registered(s, g, m) && Alive(s.db, m) && LastsAt(s, g, m) && TopPc(s, s.reqs[r])
    requires KnownMember(s.hist, g, m, s.hist.regs[(g, m)])
    requires g !in Execute(cfg, s, r, uuid).hist.flawed && g in Execute(cfg, s, r, uuid).db.groups
    requires Execute(cfg, s, r, uuid).hist.regs[(g, m)] == s.hist.regs[(g, m)]
    ensures Registered(Execute(cfg, s, r, uuid), g, m)
    ensures LastsAt(Execute(cfg, s, r, uuid), g, m)
  {
    var t := Execute(cfg, s, r, uuid);
    var pc := s.reqs[r];
    var cmd := Command(cfg, pc, uuid);
    ApplyDeadline(cmd, s.db, s.now, g);
    if PendingPc(pc, g, m) || (cmd.CmdExpireAt? && cmd.g == g) {
      if pc.Enrol? || pc.link.IdxTtl? {
        EntryCovers(cfg, s, r, uuid, g, m);
      } else {
        assert PendingPc(t.reqs[r], g, m);
      }
    } else if g in s.db.groups && !s.db.groups[g].deadline.Covers(s.hist.regs[(g, m)]) {
      var q :| q in s.reqs && PendingPc(s.reqs[q], g, m);
      assert t.reqs[q] == s.reqs[q];
    }
  }

  /** The same for a step that sends no command. */
  lemma LastsQuiet(cfg: Config, s: Sys, e: Event, g: GroupKey, m: Key)
    requires Lasts(s) && Enabled(s, e) && !e.Exec? && Registered(Step(cfg, s, e), g, m) && Alive(Step(cfg, s, e).db, m)
    ensures LastsAt(Step(cfg, s, e), g, m)
  {
    var t := Step(cfg, s, e);
    assert Registered(s, g, m) && Alive(s.db, m) && LastsAt(s, g, m);
    if g in t.db.groups && !s.db.groups[g].deadline.Covers(s.hist.regs[(g, m)]) {
      var q :| q in s.reqs && PendingPc(s.reqs[q], g, m);
      assert t.reqs[q] == s.reqs[q];
    }
  }

  lemma LastsStep(cfg: Config, s: Sys, e: Event)
    requires Inv(cfg, s) && Enabled(s, e)
    ensures Lasts(Step(cfg, s, e))
  {
    var t := Step(cfg, s, e);
    forall g, m | Registered(t, g, m) && Alive(t.db, m) ensures LastsAt(t, g, m) {
      if e.Exec? {
        LastsExec(cfg, s, e.r, e.uuid, g, m);
      } else {
        LastsQuiet(cfg, s, e, g, m);
      }
    }
  }

  lemma InvStep(cfg: Config, s: Sys, e: Event)
    requires Inv(cfg, s) && Enabled(s, e)
    ensures Inv(cfg, Step(cfg, s, e))
  {
    KnownStep(cfg, s, e);
    ClockStep(cfg, s, e);
    TokensStep(cfg, s, e);
    DeadStep(cfg, s, e);
    FamilyStep(cfg, s, e);
    RecordsStep(cfg, s, e);
    CoveredStep(cfg, s, e);
    LastsStep(cfg, s, e);
    BoundedStep(cfg, s, e);
    ToppedStep(cfg, s, e);
  }

  /** Every reachable state keeps the invariant. */
  lemma RunInv(cfg: Config, es: seq<Event>)
    requires Legal(cfg, es)
    ensures Inv(cfg, Run(cfg, es))
  {
    if es != [] {
      RunInv(cfg, es[..|es| - 1]);
      InvStep(cfg, Run(cfg, es[..|es| - 1]), es[|es| - 1]);
    }
  }
}
