/** Which runs keep an index whole: conditions on settings and events that discharge the hypothesis of the
  * revocation theorems. */
module ProtocolSmooth {
  import opened Common
  import opened Redis
  import opened Claims
  import opened Protocol
  import opened ProtocolInv
  import opened ProtocolRecords
  import opened ProtocolCover
  import opened ProtocolTheorems
  import opened ProtocolRevocation
  import opened ProtocolRotation
  import opened ProtocolSubject

  // ---------- access tokens live no longer than refresh tokens ----------

  predicate ShortAccess(cfg: Config) {
    cfg.ttlMax <= cfg.refreshTtl && (cfg.accessTtl.Some? ==> cfg.accessTtl.value <= cfg.refreshTtl)
  }

  predicate ShortPc(cfg: Config, pc: Pc) {
    match pc
    case PutJti(_, ttl, _) => ttl <= cfg.refreshTtl
    case Enrol(_, job, _) => job.ttl <= cfg.refreshTtl
    case Link(_, job, _, _, _) => job.ttl <= cfg.refreshTtl
    case _ => true
  }

  ghost predicate AllShort(cfg: Config, s: Sys) {
    forall r :: r in s.reqs ==> ShortPc(cfg, s.reqs[r])
  }

  lemma ShortNext(cfg: Config, pc: Pc, db: Db, now: nat, uuid: Id)
    requires ShortAccess(cfg) && ShortPc(cfg, pc)
    ensures ShortPc(cfg, Next(cfg, pc, db, now, uuid))
  {
  }

  lemma ShortStep(cfg: Config, s: Sys, e: Event)
    requires ShortAccess(cfg) && AllShort(cfg, s) && Enabled(s, e)
    ensures AllShort(cfg, Step(cfg, s, e))
  {
    if e.Exec? { ShortNext(cfg, s.reqs[e.r], s.db, s.now, e.uuid); }
  }

  /** Settings that bound every lifetime by that of a refresh token bound every token under way. */
  lemma {:induction false} ShortRun(cfg: Config, es: seq<Event>)
    requires Legal(cfg, es) && ShortAccess(cfg)
    ensures AllShort(cfg, Run(cfg, es))
  {
    if es != [] {
      var front := es[..|es| - 1];
      ShortRun(cfg, front);
      ShortStep(cfg, Run(cfg, front), es[|es| - 1]);
    }
  }

  // ---------- harmless events ----------

  /** The group does not expire while a request has its deadline open. */
  ghost predicate NoLapse(s: Sys, d: nat, g: GroupKey) {
    g in s.db.groups && s.db.groups[g].deadline.Passed(s.now + d) ==>
      forall r :: r in s.reqs ==> Window(s.reqs[r]) != Some(g)
  }

  /** What holds for families and subjects alike: no lapse inside a window, no member added during a sweep, no client
    * that deletes the group key. */
  ghost predicate Undisturbed(s: Sys, e: Event, g: GroupKey) {
    match e
    case Tick(d) => NoLapse(s, d, g)
    case Exec(r, _) => r in s.reqs ==>
      (s.reqs[r].Sweep? && s.reqs[r].sweep.DelGroup? && s.reqs[r].g == g ==> ZRange(s.db, g) <= s.reqs[r].members)
      && s.reqs[r] != DelOne(GroupName(g))
    case _ => true
  }

  /** No request gives up inside its window of the group. */
  ghost predicate Completes(s: Sys, e: Event, g: GroupKey) {
    e.Abort? && e.r in s.reqs ==> Window(s.reqs[e.r]) != Some(g)
  }

  /** In a family, moreover, a record does not vanish between its reading and its mark, and an access token
    * does not expire before its deadline is set. */
  ghost predicate FamilySafe(s: Sys, e: Event, f: Id) {
    Undisturbed(s, e, FamilyGroup(f)) && Completes(s, e, FamilyGroup(f))
    && (e.Exec? && e.r in s.reqs ==>
          var pc := s.reqs[e.r];
          && (pc.Mark? && pc.rec.family == f ==> pc.id in s.db.hashes)
          && (pc.Link? && pc.link.FamTtl? && pc.f == f ==> s.now < pc.job.claims.exp * MILLIS))
  }

  /** For a subject, moreover, deadlines are set in the order of expiry, as far as tokens are still stored. */
  ghost predicate InOrder(s: Sys, e: Event, subject: string) {
    Undisturbed(s, e, SubjectGroup(subject))
    && (e.Exec? && e.r in s.reqs && s.reqs[e.r].Enrol? && s.reqs[e.r].enrol.SubjTtl? && s.reqs[e.r].job.claims.sub == subject ==>
          forall j :: (SubjectGroup(subject), JtiKey(j)) in s.hist.regs && j in s.db.jtis ==>
            s.hist.regs[(SubjectGroup(subject), JtiKey(j))] <= s.reqs[e.r].job.claims.exp)
  }

  /** For the count, which includes tokens that were stored but never handed out, calls must complete too. */
  ghost predicate SubjectSafe(s: Sys, e: Event, subject: string) {
    InOrder(s, e, subject) && Completes(s, e, SubjectGroup(subject))
  }

  lemma FamilySafeSpoils(cfg: Config, s: Sys, e: Event, f: Id)
    requires AllShort(cfg, s) && Enabled(s, e)
    ensures FamilyGroup(f) in Spoils(cfg, s, e) <==> !FamilySafe(s, e, f)
  {
    if e.Exec? { assert ShortPc(cfg, s.reqs[e.r]); }
  }

  lemma SubjectSafeSpoils(cfg: Config, s: Sys, e: Event, subject: string)
    requires Enabled(s, e)
    ensures SubjectGroup(subject) in Spoils(cfg, s, e) <==> !SubjectSafe(s, e, subject)
  {
  }

  // ---------- whole runs ----------

  ghost predicate FamilySmooth(cfg: Config, es: seq<Event>, f: Id) {
    es == [] || (FamilySmooth(cfg, es[..|es| - 1], f) && FamilySafe(Run(cfg, es[..|es| - 1]), es[|es| - 1], f))
  }

  ghost predicate SubjectSmooth(cfg: Config, es: seq<Event>, subject: string) {
    es == [] || (SubjectSmooth(cfg, es[..|es| - 1], subject) && SubjectSafe(Run(cfg, es[..|es| - 1]), es[|es| - 1], subject))
  }

  ghost predicate SubjectInOrder(cfg: Config, es: seq<Event>, subject: string) {
    es == [] || (SubjectInOrder(cfg, es[..|es| - 1], subject) && InOrder(Run(cfg, es[..|es| - 1]), es[|es| - 1], subject))
  }

  lemma OrderedIsSafe(cfg: Config, s: Sys, e: Event, c: TokenClaims)
    requires Known(s) && InOrder(s, e, c.sub) && (c.jti in s.hist.tokens ==> Drawn(s, c))
    ensures TokenSafe(s, e, c)
  {
    var g, m := SubjectGroup(c.sub), JtiKey(c.jti);
    if (g, m) in s.hist.regs { assert KnownMember(s.hist, g, m, s.hist.regs[(g, m)]); }
  }

  /** Deadlines in order of expiry, without lapses and lost sweeps, are harmless to every token of the subject, whatever
    * calls fail. */
  lemma {:induction false} OrderedIsSmooth(cfg: Config, es: seq<Event>, c: TokenClaims)
    requires Legal(cfg, es) && SubjectInOrder(cfg, es, c.sub) && (c.jti in Run(cfg, es).hist.tokens ==> Drawn(Run(cfg, es), c))
    ensures TokenSmooth(cfg, es, c)
  {
    if es != [] {
      var front := es[..|es| - 1];
      RunInv(cfg, front);
      KnownStep(cfg, Run(cfg, front), es[|es| - 1]);
      OrderedIsSmooth(cfg, front, c);
      OrderedIsSafe(cfg, Run(cfg, front), es[|es| - 1], c);
    }
  }

  /** A family stays unflawed over a run exactly when every event of it is harmless to the family. */
  lemma {:induction false} FamilyUnflawedIff(cfg: Config, es: seq<Event>, f: Id)
    requires Legal(cfg, es) && ShortAccess(cfg)
    ensures FamilyGroup(f) !in Run(cfg, es).hist.flawed <==> FamilySmooth(cfg, es, f)
  {
    if es != [] {
      var front := es[..|es| - 1];
      FamilyUnflawedIff(cfg, front, f);
      ShortRun(cfg, front);
      FamilySafeSpoils(cfg, Run(cfg, front), es[|es| - 1], f);
      SpoilStep(cfg, Run(cfg, front), es[|es| - 1], FamilyGroup(f));
    }
  }

  /** A subject stays unflawed over a run exactly when every event of it is harmless to the subject. */
  lemma {:induction false} SubjectUnflawedIff(cfg: Config, es: seq<Event>, subject: string)
    requires Legal(cfg, es)
    ensures SubjectGroup(subject) !in Run(cfg, es).hist.flawed <==> SubjectSmooth(cfg, es, subject)
  {
    if es != [] {
      var front := es[..|es| - 1];
      SubjectUnflawedIff(cfg, front, subject);
      SubjectSafeSpoils(cfg, Run(cfg, front), es[|es| - 1], subject);
      SpoilStep(cfg, Run(cfg, front), es[|es| - 1], SubjectGroup(subject));
    }
  }

  // ---------- the revocation theorems on smooth runs ----------

  /** Killing a family, without ghost hypotheses: if the settings bound lifetimes and every event before the
    * ZRANGE was harmless to the family, then once the sweep has succeeded no access token entered into the
    * family before verifies for anyone and no such refresh token is found by an exchange that reads its
    * record, up to the last second of that record, at any later point of any run. */
  lemma FamilyKillIsFinal(cfg: Config, es: seq<Event>, i: nat, k: nat, n: nat, r: nat, f: Id, m: Key)
    requires Legal(cfg, es) && i < k <= n <= |es| && ShortAccess(cfg) && FamilySmooth(cfg, es[..i], f)
    requires AtRange(StateAt(cfg, es, i), r, FamilyGroup(f)) && es[i].Exec? && es[i].r == r
    requires FamilyEntry(StateAt(cfg, es, i).hist, f, m)
    requires r in StateAt(cfg, es, k).reqs && StateAt(cfg, es, k).reqs[r] == Done(Rejected(NotValid))
    ensures Dead(StateAt(cfg, es, n), m) || (m.RefreshKey? && InLastSecond(StateAt(cfg, es, i), StateAt(cfg, es, n), FamilyGroup(f), m))
  {
    LegalPrefix(cfg, es, i);
    FamilyUnflawedIff(cfg, es[..i], f);
    RevocationIsFinal(cfg, es, i, k, n, r, FamilyGroup(f), m);
  }

  /** Killing the tokens of a subject: if its deadlines were set in the order of expiry, an uninterrupted sweep kills
    * every token of it that was handed out and still verifies. */
  lemma SubjectKillCovers(cfg: Config, es: seq<Event>, c: TokenClaims, audience: string)
    requires Legal(cfg, es) && HandedOut(Run(cfg, es), c) && SubjectInOrder(cfg, es, c.sub)
    requires Verifies(Run(cfg, es).db, c, c.iss, audience, Run(cfg, es).now)
    ensures JtiKey(c.jti) in Seen(Run(cfg, es), c.sub)
    ensures forall issuer, a :: !Verifies(Swept(Run(cfg, es), c.sub), c, issuer, a, Run(cfg, es).now)
  {
    SeenIff(cfg, es, c);
    OrderedIsSmooth(cfg, es, c);
    SubjectRevocationCovers(cfg, es, c, audience);
  }

  /** The count of a subject revocation, likewise. */
  lemma SubjectCount(cfg: Config, es: seq<Event>, subject: string)
    requires Legal(cfg, es) && SubjectSmooth(cfg, es, subject)
    ensures var s, g := Run(cfg, es), SubjectGroup(subject);
      var counted := ZRange(ZCut(s.db, g, Secs(s.now)), g);
      |LiveTokens(s, g)| <= |counted| && (|LiveTokens(s, g)| == |counted| <==> counted !! s.hist.removed)
  {
    SubjectUnflawedIff(cfg, es, subject);
    CountBounds(cfg, es, subject);
  }
}
