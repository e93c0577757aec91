/** Revocation over every run: what one sweep kills stays dead, and for an unflawed group it kills everything. */
module ProtocolRevocation {
  import opened Common
  import opened Redis
  import opened Claims
  import opened Protocol
  import opened ProtocolInv
  import opened ProtocolFamily
  import opened ProtocolRecords
  import opened ProtocolCover
  import opened ProtocolTheorems

  /** `m` is dead: an access token that nobody's verification accepts, or a refresh token whose record no
    * exchange finds any more. An exchange that has read the record before is not stopped by that; see
    * `ProtocolSeal.SweptTokenExchanges`. */
  ghost predicate Dead(s: Sys, m: Key) {
    match m
    case JtiKey(j) => Refused(s, j)
    case RefreshKey(i) => HGetAll(s.db, i) == None
    case _ => true
  }

  // ---------- one sweep, command by command ----------

  /** Request `r` is past the ZRANGE that returned `members`. */
  ghost predicate Sweeping(s: Sys, r: nat, g: GroupKey, members: set<Key>) {
    r in s.reqs
    && match s.reqs[r]
       case Sweep(DelMembers, h, _, ms) => h == g && ms == members
       case Sweep(DelGroup, h, _, ms) => h == g && ms == members && members <= s.hist.removed
       case Done(outcome) => (outcome.Rejected? && Failure(outcome.error)) || (members <= s.hist.removed && outcome == SweepOutcome(g, members))
       case _ => false
  }

  function SweepOutcome(g: GroupKey, members: set<Key>): Outcome {
    if g.FamilyGroup? then Rejected(NotValid) else Revoked(|members|)
  }

  predicate AtRange(s: Sys, r: nat, g: GroupKey) {
    r in s.reqs && s.reqs[r].Sweep? && s.reqs[r].sweep.Range? && s.reqs[r].g == g
  }

  lemma SweepingStep(cfg: Config, s: Sys, e: Event, r: nat, g: GroupKey, members: set<Key>)
    requires Enabled(s, e) && Sweeping(s, r, g, members)
    ensures Sweeping(Step(cfg, s, e), r, g, members)
  {
  }

  lemma SweepingStart(cfg: Config, s: Sys, r: nat, uuid: Id, g: GroupKey)
    requires AtRange(s, r, g)
    ensures Sweeping(Execute(cfg, s, r, uuid), r, g, ZRange(s.db, g))
  {
  }

  lemma SweepingBegins(cfg: Config, es: seq<Event>, i: nat, r: nat, g: GroupKey)
    requires Legal(cfg, es) && i < |es| && AtRange(StateAt(cfg, es, i), r, g) && es[i].Exec? && es[i].r == r
    ensures Sweeping(StateAt(cfg, es, i + 1), r, g, ZRange(StateAt(cfg, es, i).db, g))
  {
    Advance(cfg, es, i);
    SweepingStart(cfg, StateAt(cfg, es, i), r, es[i].uuid, g);
  }

  /** A sweep that is past its ZRANGE keeps what it saw. */
  lemma {:induction false} SweepingKept(cfg: Config, es: seq<Event>, i: nat, r: nat, g: GroupKey, members: set<Key>)
    requires Legal(cfg, es) && i <= |es| && Sweeping(Run(cfg, es[..i]), r, g, members)
    ensures Sweeping(Run(cfg, es), r, g, members)
    decreases |es|
  {
    if i == |es| {
      assert es[..i] == es;
    } else {
      var front := es[..|es| - 1];
      assert front[..i] == es[..i];
      SweepingKept(cfg, front, i, r, g, members);
      SweepingStep(cfg, Run(cfg, front), es[|es| - 1], r, g, members);
    }
  }

  lemma SweepingFrom(cfg: Config, es: seq<Event>, i: nat, n: nat, r: nat, g: GroupKey)
    requires Legal(cfg, es) && i < n <= |es| && AtRange(StateAt(cfg, es, i), r, g) && es[i].Exec? && es[i].r == r
    ensures Sweeping(StateAt(cfg, es, n), r, g, ZRange(StateAt(cfg, es, i).db, g))
  {
    SweepingBegins(cfg, es, i, r, g);
    LegalPrefix(cfg, es, n);
    assert es[..n][..i + 1] == es[..i + 1];
    SweepingKept(cfg, es[..n], i + 1, r, g, ZRange(StateAt(cfg, es, i).db, g));
  }

  /** Event `at` of the run is the ZRANGE of request `r` on `g`. */
  ghost predicate RangedAt(cfg: Config, es: seq<Event>, at: nat, r: nat, g: GroupKey)
    requires at < |es|
  {
    AtRange(StateAt(cfg, es, at), r, g) && es[at].Exec? && es[at].r == r
  }

  /** Request `r` ranged over `g` at event `at`, deleted what it saw and ended with that answer. */
  ghost predicate SweptBy(cfg: Config, es: seq<Event>, at: nat, r: nat, g: GroupKey, count: nat) {
    at < |es| && RangedAt(cfg, es, at, r, g)
    && var seen := ZRange(StateAt(cfg, es, at).db, g);
       count == |seen| && r in Run(cfg, es).reqs && Run(cfg, es).reqs[r] == Done(SweepOutcome(g, seen))
  }

  lemma RangedKept(cfg: Config, es: seq<Event>, later: seq<Event>, at: nat, r: nat, g: GroupKey)
    requires es <= later && at < |es| && RangedAt(cfg, es, at, r, g)
    ensures RangedAt(cfg, later, at, r, g) && StateAt(cfg, later, at) == StateAt(cfg, es, at)
  {
    assert later[..at] == es[..at];
  }

  /** A key named in a DEL is dead from then on. */
  lemma RemovedDead(cfg: Config, es: seq<Event>, n: nat, m: Key)
    requires Legal(cfg, es) && n <= |es| && m in StateAt(cfg, es, n).hist.removed
    ensures Dead(StateAt(cfg, es, n), m)
  {
    Stages(cfg, es, n);
    if m.JtiKey? && m.jti in StateAt(cfg, es, n).hist.tokens { TokenAt(cfg, es, n, m.jti); }
  }

  /** Under every interleaving, each member that the ZRANGE of a revocation saw is dead once the
    * revocation succeeded, at every later point of the run: its access token verifies for nobody, its
    * refresh record is not found. */
  lemma SeenMembersDie(cfg: Config, es: seq<Event>, i: nat, k: nat, n: nat, r: nat, g: GroupKey, m: Key)
    requires Legal(cfg, es) && i < k <= n <= |es|
    requires AtRange(StateAt(cfg, es, i), r, g) && es[i].Exec? && es[i].r == r && m in ZRange(StateAt(cfg, es, i).db, g)
    requires r in StateAt(cfg, es, k).reqs && StateAt(cfg, es, k).reqs[r] == Done(SweepOutcome(g, ZRange(StateAt(cfg, es, i).db, g)))
    ensures Dead(StateAt(cfg, es, n), m)
  {
    SweepingFrom(cfg, es, i, k, r, g);
    History(cfg, es, k, n);
    RemovedDead(cfg, es, n, m);
  }

  // ---------- an unflawed group ----------

  /** A member whose score has passed, or whose store record is gone, is an access token that is dead for good or a
    * refresh token that is gone or in the last, partial second of its record. */
  lemma PastMembersDead(cfg: Config, es: seq<Event>, i: nat, n: nat, g: GroupKey, m: Key)
    requires Legal(cfg, es) && i <= n <= |es| && (g, m) in StateAt(cfg, es, i).hist.regs
    requires StateAt(cfg, es, i).hist.regs[(g, m)] <= Secs(StateAt(cfg, es, i).now) || !Alive(StateAt(cfg, es, i).db, m)
    ensures Dead(StateAt(cfg, es, n), m) || (m.RefreshKey? && InLastSecond(StateAt(cfg, es, i), StateAt(cfg, es, n), g, m))
  {
    var s := StateAt(cfg, es, i);
    InvAt(cfg, es, i);
    assert KnownMember(s.hist, g, m, s.hist.regs[(g, m)]);
    if m.JtiKey? {
      TokenAt(cfg, es, i, m.jti);
      RefusedStays(cfg, es, i, n, m.jti);
    } else {
      GoneStays(cfg, es, i, n, m.id);
      if HGetAll(StateAt(cfg, es, n).db, m.id) != None { RecordEnds(cfg, es, i, n, g, m.id); }
    }
  }

  /** So is a member of an unflawed group that the ZRANGE did not see. */
  lemma UnseenMembersDead(cfg: Config, es: seq<Event>, i: nat, n: nat, g: GroupKey, m: Key)
    requires Legal(cfg, es) && i <= n <= |es| && Registered(StateAt(cfg, es, i), g, m) && m !in ZRange(StateAt(cfg, es, i).db, g)
    ensures Dead(StateAt(cfg, es, n), m) || (m.RefreshKey? && InLastSecond(StateAt(cfg, es, i), StateAt(cfg, es, n), g, m))
  {
    EntryAt(cfg, es, i, g, m);
    PastMembersDead(cfg, es, i, n, g, m);
  }

  /** The score of `m` had passed when the sweep ran at `s`, and its record lives on at `t` within that second. */
  ghost predicate InLastSecond(s: Sys, t: Sys, g: GroupKey, m: Key)
    requires (g, m) in s.hist.regs
  {
    s.hist.regs[(g, m)] <= Secs(s.now) && t.now < (s.hist.regs[(g, m)] + 1) * MILLIS
  }

  lemma EntryAt(cfg: Config, es: seq<Event>, i: nat, g: GroupKey, m: Key)
    requires Legal(cfg, es) && i <= |es| && Registered(StateAt(cfg, es, i), g, m)
    ensures KnownMember(StateAt(cfg, es, i).hist, g, m, StateAt(cfg, es, i).hist.regs[(g, m)])
    ensures CoveredAt(StateAt(cfg, es, i), g, m)
  {
    Stages(cfg, es, i);
  }

  lemma RecordEnds(cfg: Config, es: seq<Event>, i: nat, n: nat, g: GroupKey, id: Id)
    requires Legal(cfg, es) && i <= n <= |es| && (g, RefreshKey(id)) in StateAt(cfg, es, i).hist.regs
    requires HGetAll(StateAt(cfg, es, n).db, id) != None
    ensures StateAt(cfg, es, n).now < (StateAt(cfg, es, i).hist.regs[(g, RefreshKey(id))] + 1) * MILLIS
  {
    History(cfg, es, i, n);
    Stages(cfg, es, n);
    assert EndsBy(StateAt(cfg, es, n).db, id, StateAt(cfg, es, n).hist.regs[(g, RefreshKey(id))]);
  }

  /** Revocation is final for what it reaches: once the sweep of an unflawed group succeeded, no access
    * token that was in the group verifies, and no record of a refresh token that was in it is found by an
    * exchange that reads it, at any later point of any run. There are two limits. A refresh token whose
    * index score had already passed may keep its record, stored with a millisecond deadline, until that
    * second is over. And an exchange that read the record before the sweep can still win and issue; what
    * has to be excluded for the family to stay dead is `ProtocolSeal.SweepSealsIff`. */
  lemma RevocationIsFinal(cfg: Config, es: seq<Event>, i: nat, k: nat, n: nat, r: nat, g: GroupKey, m: Key)
    requires Legal(cfg, es) && i < k <= n <= |es|
    requires AtRange(StateAt(cfg, es, i), r, g) && es[i].Exec? && es[i].r == r && Registered(StateAt(cfg, es, i), g, m)
    requires r in StateAt(cfg, es, k).reqs && StateAt(cfg, es, k).reqs[r] == Done(SweepOutcome(g, ZRange(StateAt(cfg, es, i).db, g)))
    ensures Dead(StateAt(cfg, es, n), m) || (m.RefreshKey? && InLastSecond(StateAt(cfg, es, i), StateAt(cfg, es, n), g, m))
  {
    if m in ZRange(StateAt(cfg, es, i).db, g) {
      SeenMembersDie(cfg, es, i, k, n, r, g, m);
    } else {
      UnseenMembersDead(cfg, es, i, n, g, m);
    }
  }

  // ---------- a closed family stays closed ----------

  /** No client has a live refresh token of `f`, and no request is extending it. */
  ghost predicate Closed(s: Sys, f: Id) {
    f in s.hist.ids
    && (forall id :: id in s.hist.handed && HGetAll(s.db, id) != None ==> HGetAll(s.db, id).value.family != f)
    && (forall r :: r in s.reqs ==> !Extends(s.reqs[r], f))
  }

  predicate Extends(pc: Pc, f: Id) {
    Issuing(pc) == Some(f) || (pc.Mark? && pc.rec.family == f)
  }

  /** Only a client with a record of `f`, or a request already extending `f`, leads to one that does. */
  lemma ExtendsNext(cfg: Config, s: Sys, pc: Pc, uuid: Id, f: Id)
    requires BoundPc(s, pc) && !Extends(pc, f) && Extends(Next(cfg, pc, s.db, s.now, uuid), f)
    ensures exists id :: id in s.hist.handed && HGetAll(s.db, id) != None && HGetAll(s.db, id).value.family == f
  {
    assert pc.GetRec?;
  }

  lemma ClosedReqs(cfg: Config, s: Sys, e: Event, f: Id)
    requires Bound(s) && Enabled(s, e) && Closed(s, f)
    ensures forall r :: r in Step(cfg, s, e).reqs ==> !Extends(Step(cfg, s, e).reqs[r], f)
  {
    var t := Step(cfg, s, e);
    forall r | r in t.reqs ensures !Extends(t.reqs[r], f) {
      if r in s.reqs { assert !Extends(s.reqs[r], f) && BoundPc(s, s.reqs[r]); }
      if e.Exec? && r == e.r && Extends(t.reqs[r], f) { ExtendsNext(cfg, s, s.reqs[r], e.uuid, f); }
    }
  }

  lemma ClosedHanded(cfg: Config, s: Sys, e: Event, f: Id)
    requires Known(s) && Bound(s) && Enabled(s, e) && Closed(s, f)
    ensures forall id :: id in Step(cfg, s, e).hist.handed && HGetAll(Step(cfg, s, e).db, id) != None ==>
              HGetAll(Step(cfg, s, e).db, id).value.family != f
  {
    var t := Step(cfg, s, e);
    if e.Exec? { assert KnownPc(s.hist, s.reqs[e.r]) && BoundPc(s, s.reqs[e.r]) && !Extends(s.reqs[e.r], f); }
    forall id | id in t.hist.handed && HGetAll(t.db, id) != None ensures HGetAll(t.db, id).value.family != f {
      if id in s.hist.ids { RecordsOnlyVanish(cfg, s, e, id); }
    }
  }

  lemma ClosedStep(cfg: Config, s: Sys, e: Event, f: Id)
    requires Known(s) && Bound(s) && Clocked(cfg, s) && Enabled(s, e) && Closed(s, f)
    ensures Closed(Step(cfg, s, e), f)
    ensures forall m :: FamilyEntry(Step(cfg, s, e).hist, f, m) ==> FamilyEntry(s.hist, f, m)
  {
    KnownStep(cfg, s, e);
    ClosedReqs(cfg, s, e, f);
    ClosedHanded(cfg, s, e, f);
    forall m | FamilyEntry(Step(cfg, s, e).hist, f, m) ensures FamilyEntry(s.hist, f, m) {
      NewEntry(cfg, s, e, FamilyGroup(f), m);
      if e.Exec? { assert !Extends(s.reqs[e.r], f); }
    }
  }

  lemma ClosedAdvance(cfg: Config, es: seq<Event>, n: nat, f: Id)
    requires Legal(cfg, es) && n < |es| && Closed(StateAt(cfg, es, n), f)
    ensures Closed(StateAt(cfg, es, n + 1), f)
    ensures forall m :: FamilyEntry(StateAt(cfg, es, n + 1).hist, f, m) ==> FamilyEntry(StateAt(cfg, es, n).hist, f, m)
  {
    Stages(cfg, es, n);
    ClosedStep(cfg, StateAt(cfg, es, n), es[n], f);
  }

  /** A closed family stays closed: nothing is ever issued into it again. */
  lemma {:induction false} ClosedForever(cfg: Config, es: seq<Event>, i: nat, n: nat, f: Id)
    requires Legal(cfg, es) && i <= n <= |es| && Closed(StateAt(cfg, es, i), f)
    ensures Closed(StateAt(cfg, es, n), f)
    ensures forall m :: FamilyEntry(StateAt(cfg, es, n).hist, f, m) ==> FamilyEntry(StateAt(cfg, es, i).hist, f, m)
    decreases n
  {
    if i < n {
      ClosedForever(cfg, es, i, n - 1, f);
      ClosedAdvance(cfg, es, n - 1, f);
    }
  }

  lemma HandedIndexed(cfg: Config, es: seq<Event>, i: nat, id: Id)
    requires Legal(cfg, es) && i <= |es| && id in StateAt(cfg, es, i).hist.handed && HGetAll(StateAt(cfg, es, i).db, id) != None
    ensures FamilyEntry(StateAt(cfg, es, i).hist, HGetAll(StateAt(cfg, es, i).db, id).value.family, RefreshKey(id))
    ensures id in StateAt(cfg, es, i).hist.ids
  {
    Stages(cfg, es, i);
  }

  // ---------- pruning and counting ----------

  /** The tokens of `g` that verification would accept now. */
  ghost function LiveTokens(s: Sys, g: GroupKey): set<Key> {
    set x | x in s.hist.regs && x.0 == g && x.1.JtiKey? && x.1.jti in s.hist.tokens && x.1.jti in s.db.jtis
            && Secs(s.now) < s.hist.tokens[x.1.jti].exp :: x.1
  }

  /** Pruning never drops a live token: what ZREMRANGEBYSCORE cuts off is expired. */
  lemma PruneSafe(cfg: Config, es: seq<Event>, r: nat, m: Key)
    requires Legal(cfg, es) && r in Run(cfg, es).reqs
    requires Run(cfg, es).reqs[r].Sweep? && Run(cfg, es).reqs[r].sweep.Cut?
    requires m in ZRange(Run(cfg, es).db, Run(cfg, es).reqs[r].g)
    requires m !in ZRange(ZCut(Run(cfg, es).db, Run(cfg, es).reqs[r].g, Run(cfg, es).reqs[r].cutoff), Run(cfg, es).reqs[r].g)
    ensures m !in LiveTokens(Run(cfg, es), Run(cfg, es).reqs[r].g)
  {
    RunInv(cfg, es);
    var s := Run(cfg, es);
    var g := s.reqs[r].g;
    assert ClockPc(cfg, s.now, s.reqs[r]) && KnownGroup(s.hist, g, s.db.groups[g]);
    assert KnownMember(s.hist, g, m, s.hist.regs[(g, m)]);
    CutRange(s.db, g, s.reqs[r].cutoff, m);
  }

  lemma CutRange(db: Db, g: GroupKey, cutoff: nat, m: Key)
    ensures m in ZRange(ZCut(db, g, cutoff), g) <==> m in ZRange(db, g) && cutoff < db.groups[g].scores[m]
  {
    if g in db.groups {
      var kept := map k | k in db.groups[g].scores && cutoff < db.groups[g].scores[k] :: db.groups[g].scores[k];
      assert m in kept <==> m in db.groups[g].scores && cutoff < db.groups[g].scores[m];
    }
  }

  /** The members a subject revocation deletes and counts, run without interruption in one second:
    * exactly the tokens that are still live, plus unexpired ones that were revoked one by one. */
  lemma CountMeaning(cfg: Config, es: seq<Event>, subject: string)
    requires Legal(cfg, es) && SubjectGroup(subject) !in Run(cfg, es).hist.flawed
    ensures var s, g := Run(cfg, es), SubjectGroup(subject);
      var counted := ZRange(ZCut(s.db, g, Secs(s.now)), g);
      LiveTokens(s, g) == counted - s.hist.removed
  {
    RunInv(cfg, es);
    var s, g := Run(cfg, es), SubjectGroup(subject);
    var counted := ZRange(ZCut(s.db, g, Secs(s.now)), g);
    forall m ensures m in LiveTokens(s, g) <==> m in counted - s.hist.removed {
      CountedAt(cfg, s, g, m);
    }
  }

  lemma CountedAt(cfg: Config, s: Sys, g: GroupKey, m: Key)
    requires Inv(cfg, s) && g.SubjectGroup? && g !in s.hist.flawed
    ensures m in LiveTokens(s, g) <==> m in ZRange(ZCut(s.db, g, Secs(s.now)), g) - s.hist.removed
  {
    CutRange(s.db, g, Secs(s.now), m);
    if (g, m) in s.hist.regs {
      assert KnownMember(s.hist, g, m, s.hist.regs[(g, m)]) && TokenExact(s, m.jti) && CoveredAt(s, g, m);
      assert (g, m).0 == g && (g, m).1 == m;
    }
    if g in s.db.groups { assert KnownGroup(s.hist, g, s.db.groups[g]); }
  }

  /** So the returned count bounds the live tokens killed, and meets it when none was revoked singly. */
  lemma CountBounds(cfg: Config, es: seq<Event>, subject: string)
    requires Legal(cfg, es) && SubjectGroup(subject) !in Run(cfg, es).hist.flawed
    ensures var s, g := Run(cfg, es), SubjectGroup(subject);
      var counted := ZRange(ZCut(s.db, g, Secs(s.now)), g);
      |LiveTokens(s, g)| <= |counted| && (|LiveTokens(s, g)| == |counted| <==> counted !! s.hist.removed)
  {
    CountMeaning(cfg, es, subject);
    var s, g := Run(cfg, es), SubjectGroup(subject);
    var counted := ZRange(ZCut(s.db, g, Secs(s.now)), g);
    SubsetSize(counted - s.hist.removed, counted);
    if |LiveTokens(s, g)| == |counted| { SubsetFull(counted - s.hist.removed, counted); }
    if counted !! s.hist.removed { assert counted - s.hist.removed == counted; }
  }

  lemma SubsetFull(a: set<Key>, b: set<Key>)
    requires a <= b && |a| == |b|
    ensures a == b
  {
    if x :| x in b && x !in a {
      SubsetSize(a, b - {x});
    }
  }
}
