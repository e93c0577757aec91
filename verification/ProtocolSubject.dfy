/** What a revocation reaches: a member is in its index exactly when the index has existed ever since it was entered;
  * and which runs see to that for a token and its subject.
  */
module ProtocolSubject {
  import opened Common
  import opened Redis
  import opened Claims
  import opened Protocol
  import opened ProtocolInv
  import opened ProtocolRecords
  import opened ProtocolCover
  import opened ProtocolTheorems
  import opened ProtocolRevocation

  // ---------- a member is entered once ----------

  /** The token of this request has a ZADD still to come. */
  predicate Enrolling(pc: Pc) {
    pc.Enrol? || (pc.Link? && pc.link.FamAdd?)
  }

  ghost predicate AddPc(h: Hist, pc: Pc) {
    Enrolling(pc) ==>
      (forall f :: !FamilyEntry(h, f, JtiKey(pc.job.claims.jti)))
      && (pc.Enrol? && pc.enrol.SubjAdd? ==> forall sub :: (SubjectGroup(sub), JtiKey(pc.job.claims.jti)) !in h.regs)
  }

  /** A token waiting for its ZADD is not entered yet, and one request waits for it. */
  ghost predicate OwnJti(s: Sys) {
    (forall r :: r in s.reqs ==> AddPc(s.hist, s.reqs[r]))
    && forall p, q :: p in s.reqs && q in s.reqs && Enrolling(s.reqs[p]) && Enrolling(s.reqs[q]) && p != q ==>
         s.reqs[p].job.claims.jti != s.reqs[q].job.claims.jti
  }

  /** Each ZADD enters its member into its group for the first time. */
  lemma EnteredOnce(cfg: Config, s: Sys, r: nat, uuid: Id, g: GroupKey, m: Key, score: nat)
    requires Inv(cfg, s) && OwnJti(s) && r in s.reqs && Command(cfg, s.reqs[r], uuid) == CmdZAdd(g, m, score)
    ensures (g, m) !in s.hist.regs
  {
    var pc := s.reqs[r];
    assert AddPc(s.hist, pc) && StampPc(cfg, s, pc);
    if pc.Link? && pc.link.FamAdd? { assert !FamilyEntry(s.hist, pc.f, m); }
  }

  lemma EntryKnown(h: Hist, g: GroupKey, j: Id)
    requires KnownHist(h)
    ensures (g, JtiKey(j)) in h.regs ==> j in h.ids && j in h.tokens
  {
    if (g, JtiKey(j)) in h.regs { assert KnownMember(h, g, JtiKey(j), h.regs[(g, JtiKey(j))]); }
  }

  /** A request whose token has a ZADD to come had it before, one step earlier perhaps, or has just drawn the identifier. */
  lemma EnrollingFrom(cfg: Config, s: Sys, e: Event, r: nat)
    requires Enabled(s, e) && r in Step(cfg, s, e).reqs && Enrolling(Step(cfg, s, e).reqs[r])
    ensures var pc := Step(cfg, s, e).reqs[r];
      || (r in s.reqs && Enrolling(s.reqs[r]) && s.reqs[r].job == pc.job && (pc.Enrol? && pc.enrol.SubjAdd? ==> s.reqs[r] == pc)
          && !(s.reqs[r].Link? && e.Exec? && e.r == r))
      || (e.Exec? && e.r == r && !Enrolling(s.reqs[r]) && pc.job.claims.jti == e.uuid && Command(cfg, s.reqs[r], e.uuid).CmdSetEx?)
  {
  }

  /** Only the ZADD of a request that waits for it enters a token. */
  lemma TokenZAdd(cfg: Config, s: Sys, e: Event, g: GroupKey, j: Id)
    requires Enabled(s, e) && (g, JtiKey(j)) !in s.hist.regs && (g, JtiKey(j)) in Step(cfg, s, e).hist.regs
    ensures e.Exec? && Enrolling(s.reqs[e.r]) && s.reqs[e.r].job.claims.jti == j
    ensures if g.FamilyGroup? then s.reqs[e.r].Link? else s.reqs[e.r].Enrol? && s.reqs[e.r].enrol.SubjAdd?
  {
  }

  /** A request whose token waits for its ZADD into `g` before and after an event: the event is not that ZADD. */
  lemma NotYetEntered(cfg: Config, s: Sys, e: Event, r: nat, g: GroupKey)
    requires Known(s) && OwnJti(s) && Enabled(s, e) && r in Step(cfg, s, e).reqs && Enrolling(Step(cfg, s, e).reqs[r])
    requires g.FamilyGroup? || (Step(cfg, s, e).reqs[r].Enrol? && Step(cfg, s, e).reqs[r].enrol.SubjAdd?)
    ensures (g, JtiKey(Step(cfg, s, e).reqs[r].job.claims.jti)) !in Step(cfg, s, e).hist.regs
  {
    var t := Step(cfg, s, e);
    var j := t.reqs[r].job.claims.jti;
    EnrollingFrom(cfg, s, e, r);
    EntryKnown(s.hist, g, j);
    if r in s.reqs { assert AddPc(s.hist, s.reqs[r]); }
    if g.FamilyGroup? { assert FamilyEntry(s.hist, g.family, JtiKey(j)) <==> (g, JtiKey(j)) in s.hist.regs; }
    assert (g, JtiKey(j)) !in s.hist.regs;
    if (g, JtiKey(j)) in t.hist.regs { TokenZAdd(cfg, s, e, g, j); }
  }

  lemma OwnJtiStep(cfg: Config, s: Sys, e: Event)
    requires Known(s) && OwnJti(s) && Enabled(s, e)
    ensures OwnJti(Step(cfg, s, e))
  {
    var t := Step(cfg, s, e);
    forall r | r in t.reqs ensures AddPc(t.hist, t.reqs[r]) {
      if Enrolling(t.reqs[r]) {
        forall g: GroupKey | g.FamilyGroup? || (t.reqs[r].Enrol? && t.reqs[r].enrol.SubjAdd?)
          ensures (g, JtiKey(t.reqs[r].job.claims.jti)) !in t.hist.regs
        {
          NotYetEntered(cfg, s, e, r, g);
        }
      }
    }
    forall p, q | p in t.reqs && q in t.reqs && Enrolling(t.reqs[p]) && Enrolling(t.reqs[q]) && p != q
      ensures t.reqs[p].job.claims.jti != t.reqs[q].job.claims.jti
    {
      DistinctTokens(cfg, s, e, p, q);
    }
  }

  lemma DistinctTokens(cfg: Config, s: Sys, e: Event, p: nat, q: nat)
    requires Known(s) && OwnJti(s) && Enabled(s, e) && p != q
    requires p in Step(cfg, s, e).reqs && q in Step(cfg, s, e).reqs
    requires Enrolling(Step(cfg, s, e).reqs[p]) && Enrolling(Step(cfg, s, e).reqs[q])
    ensures Step(cfg, s, e).reqs[p].job.claims.jti != Step(cfg, s, e).reqs[q].job.claims.jti
  {
    EnrollingFrom(cfg, s, e, p);
    EnrollingFrom(cfg, s, e, q);
    assert KnownPc(s.hist, s.reqs[p]) && KnownPc(s.hist, s.reqs[q]);
  }

  lemma {:induction false} OwnJtiRun(cfg: Config, es: seq<Event>)
    requires Legal(cfg, es)
    ensures OwnJti(Run(cfg, es))
  {
    if es != [] {
      var front := es[..|es| - 1];
      OwnJtiRun(cfg, front);
      RunInv(cfg, front);
      OwnJtiStep(cfg, Run(cfg, front), es[|es| - 1]);
    }
  }

  // ---------- exactly when the index has a member ----------

  ghost predicate Listed(s: Sys, g: GroupKey, m: Key) {
    m in ZRange(s.db, g)
  }

  /** `m` was entered into `g` and its score is still to come. */
  ghost predicate Ahead(s: Sys, g: GroupKey, m: Key) {
    (g, m) in s.hist.regs && Secs(s.now) < s.hist.regs[(g, m)]
  }

  /** The score of an unexpired member is above every cut. */
  lemma UncutScore(cfg: Config, s: Sys, r: nat, g: GroupKey, m: Key)
    requires Known(s) && Clocked(cfg, s) && r in s.reqs && Listed(s, g, m) && Ahead(s, g, m)
    ensures s.reqs[r].Sweep? && s.reqs[r].sweep.Cut? ==> s.reqs[r].cutoff < s.db.groups[g].scores[m]
  {
    assert KnownGroup(s.hist, g, s.db.groups[g]) && ClockPc(cfg, s.now, s.reqs[r]);
  }

  /** Only losing the whole group takes an unexpired member out of it. */
  lemma ListedStays(cfg: Config, s: Sys, e: Event, g: GroupKey, m: Key)
    requires Known(s) && Clocked(cfg, s) && Enabled(s, e) && Ahead(s, g, m)
    requires Listed(s, g, m) && g in Step(cfg, s, e).db.groups
    ensures Listed(Step(cfg, s, e), g, m)
  {
    if e.Exec? {
      UncutScore(cfg, s, e.r, g, m);
      GroupKeeps(Command(cfg, s.reqs[e.r], e.uuid), s.db, s.now, g, m);
    }
  }

  lemma GroupKeeps(cmd: Cmd, db: Db, now: nat, g: GroupKey, m: Key)
    requires m in ZRange(db, g) && g in Apply(cmd, db, now).groups
    requires cmd.CmdZCut? && cmd.g == g ==> cmd.cutoff < db.groups[g].scores[m]
    ensures m in ZRange(Apply(cmd, db, now), g)
  {
    ApplyRange(if (cmd.CmdExpireAt? && cmd.g == g) || cmd.CmdDel? then NoCmd else cmd, db, now, g, m);
  }

  lemma MemberFrom(cmd: Cmd, db: Db, now: nat, g: GroupKey, m: Key)
    requires m in ZRange(Apply(cmd, db, now), g)
    ensures m in ZRange(db, g) || (cmd.CmdZAdd? && cmd.g == g && cmd.member == m)
  {
  }

  /** A member that is out of the group is not entered again. */
  lemma ListedOnce(cfg: Config, s: Sys, e: Event, g: GroupKey, m: Key)
    requires Inv(cfg, s) && OwnJti(s) && Enabled(s, e) && (g, m) in s.hist.regs && Listed(Step(cfg, s, e), g, m)
    ensures Listed(s, g, m)
  {
    if e.Exec? {
      var cmd := Command(cfg, s.reqs[e.r], e.uuid);
      MemberFrom(cmd, s.db, s.now, g, m);
      if cmd.CmdZAdd? { EnteredOnce(cfg, s, e.r, e.uuid, cmd.g, cmd.member, cmd.score); }
    }
  }

  lemma ListedStep(cfg: Config, s: Sys, e: Event, g: GroupKey, m: Key)
    requires Inv(cfg, s) && OwnJti(s) && Enabled(s, e) && Ahead(s, g, m)
    ensures Listed(Step(cfg, s, e), g, m) <==> Listed(s, g, m) && g in Step(cfg, s, e).db.groups
  {
    if Listed(Step(cfg, s, e), g, m) { ListedOnce(cfg, s, e, g, m); }
    if Listed(s, g, m) && g in Step(cfg, s, e).db.groups { ListedStays(cfg, s, e, g, m); }
  }

  /** An entry that is new is listed; an older one was ahead before if it is now. */
  lemma ListedEntry(cfg: Config, s: Sys, e: Event, g: GroupKey, m: Key)
    requires Inv(cfg, s) && Enabled(s, e) && Ahead(Step(cfg, s, e), g, m)
    ensures if (g, m) in s.hist.regs then Ahead(s, g, m) else Listed(Step(cfg, s, e), g, m)
  {
    if (g, m) in s.hist.regs {
      LaterStep(cfg, s, e);
    } else {
      NewEntry(cfg, s, e, g, m);
    }
  }

  /** The group has been there in every state since `m` was entered. */
  ghost predicate IndexKept(cfg: Config, es: seq<Event>, g: GroupKey, m: Key) {
    ((g, m) in Run(cfg, es).hist.regs ==> g in Run(cfg, es).db.groups)
    && (es == [] || IndexKept(cfg, es[..|es| - 1], g, m))
  }

  /** Before the entry of a member there is nothing to keep. */
  lemma {:induction false} KeptBefore(cfg: Config, es: seq<Event>, g: GroupKey, m: Key)
    requires Legal(cfg, es) && (g, m) !in Run(cfg, es).hist.regs
    ensures IndexKept(cfg, es, g, m)
  {
    if es != [] {
      var front := es[..|es| - 1];
      RunInv(cfg, front);
      KnownStep(cfg, Run(cfg, front), es[|es| - 1]);
      KeptBefore(cfg, front, g, m);
    }
  }

  /** Exactly when an unexpired member is in its index: the index was never lost since the member was entered. */
  lemma {:induction false} ListedIff(cfg: Config, es: seq<Event>, g: GroupKey, m: Key)
    requires Legal(cfg, es) && Ahead(Run(cfg, es), g, m)
    ensures m in ZRange(Run(cfg, es).db, g) <==> IndexKept(cfg, es, g, m)
  {
    if es != [] {
      var front, e := es[..|es| - 1], es[|es| - 1];
      RunInv(cfg, front);
      OwnJtiRun(cfg, front);
      ListedEntry(cfg, Run(cfg, front), e, g, m);
      if (g, m) in Run(cfg, front).hist.regs {
        ListedIff(cfg, front, g, m);
        ListedStep(cfg, Run(cfg, front), e, g, m);
      } else {
        KeptBefore(cfg, front, g, m);
      }
    }
  }

  // ---------- what a sweep reaches ----------

  /** Revocation is final for every member whose index was kept, whatever went wrong around it: once the sweep succeeded
    * the access token never verifies again and the refresh record is not found, but for the last second of one
    * whose score had passed. */
  lemma KeptMembersDie(cfg: Config, es: seq<Event>, i: nat, k: nat, n: nat, r: nat, g: GroupKey, m: Key)
    requires Legal(cfg, es) && i < k <= n <= |es| && AtRange(StateAt(cfg, es, i), r, g) && es[i].Exec? && es[i].r == r
    requires (g, m) in StateAt(cfg, es, i).hist.regs && IndexKept(cfg, es[..i], g, m)
    requires r in StateAt(cfg, es, k).reqs && StateAt(cfg, es, k).reqs[r] == Done(SweepOutcome(g, ZRange(StateAt(cfg, es, i).db, g)))
    ensures Dead(StateAt(cfg, es, n), m) || (m.RefreshKey? && InLastSecond(StateAt(cfg, es, i), StateAt(cfg, es, n), g, m))
  {
    if m in ZRange(StateAt(cfg, es, i).db, g) {
      SeenMembersDie(cfg, es, i, k, n, r, g, m);
    } else {
      LegalPrefix(cfg, es, i);
      if Ahead(StateAt(cfg, es, i), g, m) { ListedIff(cfg, es[..i], g, m); }
      PastMembersDead(cfg, es, i, n, g, m);
    }
  }

  /** The store after a subject revocation that nothing interrupts, and what its ZRANGE saw. */
  ghost function Seen(s: Sys, subject: string): set<Key> {
    ZRange(ZCut(s.db, SubjectGroup(subject), Secs(s.now)), SubjectGroup(subject))
  }

  ghost function Swept(s: Sys, subject: string): Db {
    Del(Del(ZCut(s.db, SubjectGroup(subject), Secs(s.now)), Seen(s, subject)), {GroupName(SubjectGroup(subject))})
  }

  ghost predicate Indexed(s: Sys, c: TokenClaims) {
    JtiKey(c.jti) in ZRange(s.db, SubjectGroup(c.sub))
  }

  /** The claims behind a `jti`. */
  ghost predicate Drawn(s: Sys, c: TokenClaims) {
    c.jti in s.hist.tokens && s.hist.tokens[c.jti] == c
  }

  /** What a handed-out token that verifies has to do with its index. */
  lemma SeenIff(cfg: Config, es: seq<Event>, c: TokenClaims)
    requires Legal(cfg, es) && HandedOut(Run(cfg, es), c) && Secs(Run(cfg, es).now) < c.exp
    ensures SubjectEntry(Run(cfg, es).hist, c) && Drawn(Run(cfg, es), c)
    ensures Ahead(Run(cfg, es), SubjectGroup(c.sub), JtiKey(c.jti))
    ensures JtiKey(c.jti) in Seen(Run(cfg, es), c.sub) <==> Indexed(Run(cfg, es), c)
  {
    var s, g, m := Run(cfg, es), SubjectGroup(c.sub), JtiKey(c.jti);
    assert es[..|es|] == es;
    var r :| r in s.reqs && Hands(s.reqs[r], c);
    HandedOutIndexed(cfg, es, r);
    HandedToken(cfg, es, |es|, c);
    RunInv(cfg, es);
    assert KnownMember(s.hist, g, m, s.hist.regs[(g, m)]);
    if Indexed(s, c) { assert KnownGroup(s.hist, g, s.db.groups[g]); }
    CutRange(s.db, g, Secs(s.now), m);
  }

  /** Exactly when a subject revocation reaches a token: one that was handed out and still verifies is seen by an
    * uninterrupted sweep, and is refused for every issuer and audience after it, if and only if the index of
    * its subject has been there ever since the token was entered. Failed calls, earlier tokens and what happened to
    * other tokens do not matter. */
  lemma SubjectCoverage(cfg: Config, es: seq<Event>, c: TokenClaims, audience: string)
    requires Legal(cfg, es) && HandedOut(Run(cfg, es), c)
    requires Verifies(Run(cfg, es).db, c, c.iss, audience, Run(cfg, es).now)
    ensures JtiKey(c.jti) in Seen(Run(cfg, es), c.sub) <==> IndexKept(cfg, es, SubjectGroup(c.sub), JtiKey(c.jti))
    ensures (forall issuer, a :: !Verifies(Swept(Run(cfg, es), c.sub), c, issuer, a, Run(cfg, es).now)) <==> IndexKept(cfg, es, SubjectGroup(c.sub), JtiKey(c.jti))
  {
    SeenIff(cfg, es, c);
    ListedIff(cfg, es, SubjectGroup(c.sub), JtiKey(c.jti));
    if JtiKey(c.jti) !in Seen(Run(cfg, es), c.sub) {
      assert Verifies(Swept(Run(cfg, es), c.sub), c, c.iss, audience, Run(cfg, es).now);
    }
  }

  // ---------- which runs keep a token covered ----------

  /** The token is entered, stored and unexpired. */
  ghost predicate Live(s: Sys, c: TokenClaims) {
    SubjectEntry(s.hist, c) && c.jti in s.db.jtis && Secs(s.now) < c.exp
  }

  /** A request is about to set the deadline for this token. */
  predicate Settling(pc: Pc, c: TokenClaims) {
    pc.Enrol? && pc.enrol.SubjTtl? && pc.job.claims == c
  }

  /** The event does the index no harm as far as this one token goes: while the token is live and in the index, its own
    * window does not outlast the group, no deadline is set below its expiry, no sweep that missed it deletes the
    * group, and no client deletes the group key. */
  ghost predicate TokenSafe(s: Sys, e: Event, c: TokenClaims) {
    Live(s, c) && Indexed(s, c) ==>
      match e
      case Tick(d) =>
        Secs(s.now + d) < c.exp && s.db.groups[SubjectGroup(c.sub)].deadline.Passed(s.now + d) ==>
          forall r :: r in s.reqs ==> !Settling(s.reqs[r], c)
      case Exec(r, _) => r in s.reqs ==> SafePc(s.reqs[r], c)
      case _ => true
  }

  predicate SafePc(pc: Pc, c: TokenClaims) {
    match pc
    case Enrol(SubjTtl, job, _) => job.claims.sub == c.sub ==> c.exp <= job.claims.exp
    case Sweep(DelGroup, g, _, members) => g == SubjectGroup(c.sub) ==> JtiKey(c.jti) in members
    case DelOne(key) => key != GroupName(SubjectGroup(c.sub))
    case _ => true
  }

  ghost predicate TokenSmooth(cfg: Config, es: seq<Event>, c: TokenClaims) {
    es == [] || (TokenSmooth(cfg, es[..|es| - 1], c) && TokenSafe(Run(cfg, es[..|es| - 1]), es[|es| - 1], c))
  }

  ghost predicate Lasting(s: Sys, c: TokenClaims) {
    Indexed(s, c) && s.db.groups[SubjectGroup(c.sub)].deadline.Covers(c.exp)
  }

  /** The request carries the token and has set the deadline for it. */
  predicate Carries(pc: Pc, c: TokenClaims) {
    (pc.Enrol? && pc.enrol.SelfCheck? && pc.job.claims == c) || (pc.Link? && pc.job.claims == c) || Hands(pc, c)
  }

  ghost predicate GoodPc(s: Sys, c: TokenClaims, pc: Pc) {
    (Settling(pc, c) && Live(s, c) ==> Indexed(s, c)) && (Carries(pc, c) && Live(s, c) ==> Lasting(s, c))
  }

  /** While the token is live, a request that is to set the deadline for it finds it in the index, and for one that is
    * past that the index outlasts it. */
  ghost predicate Good(s: Sys, c: TokenClaims) {
    forall r :: r in s.reqs ==> GoodPc(s, c, s.reqs[r])
  }

  /** A token that is live after an event and was entered before it was live before it. */
  lemma LiveBefore(cfg: Config, s: Sys, e: Event, c: TokenClaims)
    requires Known(s) && Enabled(s, e) && SubjectEntry(s.hist, c) && Live(Step(cfg, s, e), c)
    ensures Live(s, c)
  {
    EntryKnown(s.hist, SubjectGroup(c.sub), c.jti);
    if e.Exec? { ApplyJti(Command(cfg, s.reqs[e.r], e.uuid), s.db, s.now, c.jti); }
  }

  /** A harmless command leaves the group of a live token where it is. */
  lemma SafeCommand(cfg: Config, s: Sys, r: nat, uuid: Id, c: TokenClaims)
    requires Known(s) && Clocked(cfg, s) && r in s.reqs && uuid !in s.hist.ids && SafePc(s.reqs[r], c) && TokensExact(s)
    requires Live(s, c) && Drawn(s, c) && Indexed(s, c)
    ensures Indexed(Execute(cfg, s, r, uuid), c)
    ensures Lasting(s, c) ==> Lasting(Execute(cfg, s, r, uuid), c)
  {
    var cmd, g := Command(cfg, s.reqs[r], uuid), SubjectGroup(c.sub);
    assert KnownMember(s.hist, g, JtiKey(c.jti), s.hist.regs[(g, JtiKey(c.jti))]);
    UncutScore(cfg, s, r, g, JtiKey(c.jti));
    assert KnownPc(s.hist, s.reqs[r]) && TokenExact(s, c.jti);
    assert !(cmd.CmdDel? && GroupName(g) in cmd.keys);
    ApplyRange(cmd, s.db, s.now, g, JtiKey(c.jti));
    ApplyDeadline(cmd, s.db, s.now, g);
  }

  /** A harmless event that sends no command leaves the group of a live token as it is. */
  lemma SafeQuiet(cfg: Config, s: Sys, e: Event, c: TokenClaims, r: nat)
    requires Enabled(s, e) && !e.Exec? && TokenSafe(s, e, c) && Live(s, c) && Live(Step(cfg, s, e), c)
    requires r in s.reqs && GoodPc(s, c, s.reqs[r])
    ensures GoodPc(Step(cfg, s, e), c, s.reqs[r])
  {
  }

  lemma GoodStays(cfg: Config, s: Sys, e: Event, c: TokenClaims, r: nat)
    requires Inv(cfg, s) && Enabled(s, e) && Good(s, c) && TokenSafe(s, e, c)
    requires r in s.reqs && r in Step(cfg, s, e).reqs && Step(cfg, s, e).reqs[r] == s.reqs[r]
    ensures GoodPc(Step(cfg, s, e), c, s.reqs[r])
  {
    var pc := s.reqs[r];
    assert GoodPc(s, c, pc) && KnownPc(s.hist, pc) && EntryPc(s.hist, pc);
    if (Settling(pc, c) || Carries(pc, c)) && Live(Step(cfg, s, e), c) {
      LiveBefore(cfg, s, e, c);
      if e.Exec? {
        SafeCommand(cfg, s, e.r, e.uuid, c);
      } else {
        SafeQuiet(cfg, s, e, c, r);
      }
    }
  }

  /** A request gets a token from its ZADD to its EXPIREAT, and keeps it from there on. */
  lemma CarriesNext(cfg: Config, pc: Pc, db: Db, now: nat, uuid: Id, c: TokenClaims)
    ensures Settling(Next(cfg, pc, db, now, uuid), c) ==> pc.Enrol? && pc.enrol.SubjAdd? && pc.job.claims == c
    ensures Carries(Next(cfg, pc, db, now, uuid), c) ==> Settling(pc, c) || Carries(pc, c)
  {
  }

  /** The token's own EXPIREAT makes the group outlast it. */
  lemma Settles(cfg: Config, s: Sys, r: nat, uuid: Id, c: TokenClaims)
    requires r in s.reqs && Settling(s.reqs[r], c) && Indexed(s, c) && Secs(s.now) < c.exp
    ensures Lasting(Execute(cfg, s, r, uuid), c)
  {
  }

  lemma GoodNext(cfg: Config, s: Sys, e: Event, c: TokenClaims)
    requires Inv(cfg, s) && Enabled(s, e) && Good(s, c) && TokenSafe(s, e, c) && e.Exec?
    ensures GoodPc(Step(cfg, s, e), c, Step(cfg, s, e).reqs[e.r])
  {
    var t, pc := Step(cfg, s, e), s.reqs[e.r];
    CarriesNext(cfg, pc, s.db, s.now, e.uuid, c);
    if Carries(t.reqs[e.r], c) && Live(t, c) {
      assert GoodPc(s, c, pc) && KnownPc(s.hist, pc) && EntryPc(s.hist, pc);
      LiveBefore(cfg, s, e, c);
      if Settling(pc, c) {
        Settles(cfg, s, e.r, e.uuid, c);
      } else {
        SafeCommand(cfg, s, e.r, e.uuid, c);
      }
    }
  }

  lemma GoodStep(cfg: Config, s: Sys, e: Event, c: TokenClaims)
    requires Inv(cfg, s) && Enabled(s, e) && Good(s, c) && TokenSafe(s, e, c)
    ensures Good(Step(cfg, s, e), c)
  {
    var t := Step(cfg, s, e);
    forall r | r in t.reqs ensures GoodPc(t, c, t.reqs[r]) {
      if r in s.reqs && t.reqs[r] == s.reqs[r] {
        GoodStays(cfg, s, e, c, r);
      } else if e.Exec? {
        GoodNext(cfg, s, e, c);
      }
    }
  }

  lemma {:induction false} GoodRun(cfg: Config, es: seq<Event>, c: TokenClaims)
    requires Legal(cfg, es) && TokenSmooth(cfg, es, c)
    ensures Good(Run(cfg, es), c)
  {
    if es != [] {
      var front := es[..|es| - 1];
      GoodRun(cfg, front, c);
      RunInv(cfg, front);
      GoodStep(cfg, Run(cfg, front), es[|es| - 1], c);
    }
  }

  /** Subject coverage: if no event of the run did the index harm as far as this token goes, a token that was handed out
    * and still verifies dies in an uninterrupted sweep, whatever failed and whatever happened before its entry. The
    * group moreover lasts until the token has expired. */
  lemma SubjectRevocationCovers(cfg: Config, es: seq<Event>, c: TokenClaims, audience: string)
    requires Legal(cfg, es) && HandedOut(Run(cfg, es), c) && TokenSmooth(cfg, es, c)
    requires Verifies(Run(cfg, es).db, c, c.iss, audience, Run(cfg, es).now)
    ensures Lasting(Run(cfg, es), c) && JtiKey(c.jti) in Seen(Run(cfg, es), c.sub)
    ensures forall issuer, a :: !Verifies(Swept(Run(cfg, es), c.sub), c, issuer, a, Run(cfg, es).now)
  {
    GoodRun(cfg, es, c);
    SeenIff(cfg, es, c);
    var r :| r in Run(cfg, es).reqs && Hands(Run(cfg, es).reqs[r], c);
    assert GoodPc(Run(cfg, es), c, Run(cfg, es).reqs[r]);
  }
}
