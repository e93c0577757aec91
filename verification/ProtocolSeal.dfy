/** When a family is beyond revival: exact conditions, and the runs that show them needed. */
module ProtocolSeal {
  import opened Common
  import opened Redis
  import opened Claims
  import opened Protocol
  import opened ProtocolFamily
  import opened ProtocolTheorems
  import opened ProtocolRevocation
  import opened ProtocolRotation
  import opened ProtocolRuns
  import opened ProtocolIssues

  // ---------- sealed families ----------

  /** An exchange got past the mark, or a first pair is on its way, and will issue into `f`. */
  ghost predicate IssuingInto(s: Sys, f: Id) {
    exists r :: r in s.reqs && Issuing(s.reqs[r]) == Some(f)
  }

  /** Nothing is issued into `f` in any legal continuation of the run. */
  ghost predicate Sealed(cfg: Config, es: seq<Event>, f: Id) {
    forall later :: es <= later && Legal(cfg, later) ==> !IssuingInto(Run(cfg, later), f)
  }

  lemma ClosedIsSealed(cfg: Config, es: seq<Event>, later: seq<Event>, f: Id)
    requires Legal(cfg, later) && es <= later && Closed(Run(cfg, es), f)
    ensures !IssuingInto(Run(cfg, later), f)
  {
    assert later[..|es|] == es && later[..|later|] == later;
    ClosedForever(cfg, later, |es|, |later|, f);
    forall r | r in Run(cfg, later).reqs ensures Issuing(Run(cfg, later).reqs[r]) != Some(f) {
      assert !Extends(Run(cfg, later).reqs[r], f);
    }
  }

  /** A client deletes a key by name. */
  lemma DeleteKey(cfg: Config, es: seq<Event>, key: Key) returns (later: seq<Event>)
    requires Legal(cfg, es)
    ensures es <= later && Legal(cfg, later)
    ensures forall r :: r in Run(cfg, es).reqs ==> r in Run(cfg, later).reqs && Run(cfg, later).reqs[r] == Run(cfg, es).reqs[r]
    ensures Run(cfg, later).db == Del(Run(cfg, es).db, {key})
  {
    var begun, q := Enter(cfg, es, Revoke(key), FreshId(Run(cfg, es).hist.ids), "");
    later := Go(cfg, begun, q, "");
    NamedDeletion(cfg, Run(cfg, es), Run(cfg, begun), Run(cfg, later), q, key);
    PrefixTrans(es, begun, later);
  }

  lemma NamedDeletion(cfg: Config, s: Sys, m: Sys, t: Sys, q: nat, key: Key)
    requires q !in s.reqs && m.reqs == s.reqs[q := DelOne(key)] && m.db == s.db && Moved(cfg, m, t, q, "")
    ensures forall r :: r in s.reqs ==> r in t.reqs && t.reqs[r] == s.reqs[r]
    ensures t.db == Del(s.db, {key})
  {
  }

  /** An exchange that has read its record can always still win: if the mark is set, once the key is gone. */
  lemma MarkRevives(cfg: Config, es: seq<Event>, r: nat) returns (later: seq<Event>)
    requires Legal(cfg, es) && r in Run(cfg, es).reqs && Run(cfg, es).reqs[r].Mark?
    ensures es <= later && Legal(cfg, later) && IssuingInto(Run(cfg, later), Run(cfg, es).reqs[r].rec.family)
  {
    var pc := Run(cfg, es).reqs[r];
    var gone := DeleteKey(cfg, es, RefreshKey(pc.id));
    later := WinMark(cfg, gone, r, pc.id);
    PrefixTrans(es, gone, later);
    assert r in Run(cfg, later).reqs && Issuing(Run(cfg, later).reqs[r]) == Some(pc.rec.family);
  }

  /** A client with a refresh token of the family can start such an exchange. */
  lemma TokenRevives(cfg: Config, es: seq<Event>, id: Id) returns (later: seq<Event>)
    requires Legal(cfg, es) && id in Run(cfg, es).hist.handed && HGetAll(Run(cfg, es).db, id) != None
    ensures es <= later && Legal(cfg, later) && IssuingInto(Run(cfg, later), HGetAll(Run(cfg, es).db, id).value.family)
  {
    var read, r := Present(cfg, es, id, "");
    later := MarkRevives(cfg, read, r);
    PrefixTrans(es, read, later);
  }

  /** A name nobody has drawn yet can become a family. */
  lemma NewFamily(cfg: Config, es: seq<Event>, f: Id, plan: Plan) returns (later: seq<Event>, r: nat)
    requires Legal(cfg, es) && f !in Run(cfg, es).hist.ids
    ensures es <= later && Legal(cfg, later) && r in Run(cfg, later).reqs
    ensures Run(cfg, later).reqs[r] == Build(plan.(family := Some(f))) && Run(cfg, later).hist.flawed == Run(cfg, es).hist.flawed
  {
    later, r := Enter(cfg, es, IssuePair(plan), f, "");
  }

  /** A family is sealed exactly when it is closed: its name is taken, no client has a stored refresh
    * token of it, no request is issuing into it, and none has read a record of it and not marked it yet. */
  lemma SealedIff(cfg: Config, es: seq<Event>, f: Id)
    requires Legal(cfg, es)
    ensures Sealed(cfg, es, f) <==> Closed(Run(cfg, es), f)
  {
    if Closed(Run(cfg, es), f) {
      forall later | es <= later && Legal(cfg, later) ensures !IssuingInto(Run(cfg, later), f) {
        ClosedIsSealed(cfg, es, later, f);
      }
    } else {
      var later := Revival(cfg, es, f);
    }
  }

  lemma Revival(cfg: Config, es: seq<Event>, f: Id) returns (later: seq<Event>)
    requires Legal(cfg, es) && !Closed(Run(cfg, es), f)
    ensures es <= later && Legal(cfg, later) && IssuingInto(Run(cfg, later), f)
  {
    if f !in Run(cfg, es).hist.ids {
      var r;
      later, r := NewFamily(cfg, es, f, Plan("", "", [], None, [], None));
      assert Issuing(Run(cfg, later).reqs[r]) == Some(f);
    } else if id :| id in Run(cfg, es).hist.handed && HGetAll(Run(cfg, es).db, id) != None
                    && HGetAll(Run(cfg, es).db, id).value.family == f {
      later := TokenRevives(cfg, es, id);
    } else {
      var r :| r in Run(cfg, es).reqs && Extends(Run(cfg, es).reqs[r], f);
      if Issuing(Run(cfg, es).reqs[r]) == Some(f) {
        later := es;
      } else {
        later := MarkRevives(cfg, es, r);
      }
    }
  }

  // ---------- after a sweep ----------

  ghost predicate Stored(s: Sys, f: Id, id: Id) {
    id in s.hist.handed && HGetAll(s.db, id) != None && HGetAll(s.db, id).value.family == f
  }

  /** A stored refresh token of `f` that the ZRANGE at `s` could not take away: it was handed out later, or
    * its index score had passed and its record is in its last, partial second. */
  ghost predicate Leftover(s: Sys, t: Sys, f: Id, id: Id) {
    Stored(t, f, id)
    && (id in s.hist.handed ==>
          (FamilyGroup(f), RefreshKey(id)) in s.hist.regs && InLastSecond(s, t, FamilyGroup(f), RefreshKey(id)))
  }

  /** After the sweep of an unflawed family every refresh token still stored is one of these. */
  lemma StoredIsLeftover(cfg: Config, es: seq<Event>, at: nat, r: nat, f: Id, count: nat, id: Id)
    requires Legal(cfg, es) && SweptBy(cfg, es, at, r, FamilyGroup(f), count)
    requires FamilyGroup(f) !in StateAt(cfg, es, at).hist.flawed && Stored(Run(cfg, es), f, id)
    ensures Leftover(StateAt(cfg, es, at), Run(cfg, es), f, id)
  {
    assert es[..|es|] == es;
    if id in StateAt(cfg, es, at).hist.handed {
      InvAt(cfg, es, at);
      GoneStays(cfg, es, at, |es|, id);
      HandedIndexed(cfg, es, at, id);
      RevocationIsFinal(cfg, es, at, |es|, |es|, r, FamilyGroup(f), RefreshKey(id));
    }
  }

  /** What one can check when a sweep of `f` has succeeded: no request is issuing into `f` or holds a record
    * of it that it has not marked yet, and no refresh token of it is left over. */
  ghost predicate NothingLate(s: Sys, t: Sys, f: Id) {
    (forall q :: q in t.reqs ==> !Extends(t.reqs[q], f)) && forall id :: id in t.hist.handed ==> !Leftover(s, t, f, id)
  }

  /** The reuse detector ends a family for good exactly when nothing of it is late. */
  lemma SweepSealsIff(cfg: Config, es: seq<Event>, at: nat, r: nat, f: Id, count: nat)
    requires Legal(cfg, es) && SweptBy(cfg, es, at, r, FamilyGroup(f), count)
    requires FamilyGroup(f) !in StateAt(cfg, es, at).hist.flawed && f in Run(cfg, es).hist.ids
    ensures Sealed(cfg, es, f) <==> NothingLate(StateAt(cfg, es, at), Run(cfg, es), f)
  {
    SealedIff(cfg, es, f);
    var t := Run(cfg, es);
    forall id | id in t.hist.handed
      ensures Leftover(StateAt(cfg, es, at), t, f, id) <==> (HGetAll(t.db, id) != None && HGetAll(t.db, id).value.family == f)
    {
      if Stored(t, f, id) {
        StoredIsLeftover(cfg, es, at, r, f, count, id);
      }
    }
  }

  // ---------- a token that was swept and still exchanges ----------

  /** The client of the story: it holds an unused refresh token that is in the live index of its family. */
  ghost predicate Holding(s: Sys, id: Id, record: RefreshRecord) {
    id in s.hist.handed && Unspent(s.db, id, record) && Indexed(s, record.family, id) && record.audience != []
  }

  /** Two exchanges of `id` read its record. */
  lemma BothRead(cfg: Config, es: seq<Event>, id: Id, record: RefreshRecord, issuer: string)
    returns (later: seq<Event>, slow: nat, fast: nat)
    requires Legal(cfg, es) && id in Run(cfg, es).hist.handed && HGetAll(Run(cfg, es).db, id) == Some(record)
    ensures es <= later && Legal(cfg, later) && Calm(Run(cfg, es), Run(cfg, later)) && slow != fast
    ensures fast !in Run(cfg, es).reqs && slow !in Run(cfg, es).reqs
    ensures Run(cfg, later).reqs == Run(cfg, es).reqs[slow := Mark(id, record, issuer)][fast := Mark(id, record, issuer)]
    ensures WinCount(cfg, later, id) == WinCount(cfg, es, id) && DropCount(cfg, later, id) == DropCount(cfg, es, id)
  {
    var one;
    one, slow := Present(cfg, es, id, issuer);
    later, fast := Present(cfg, one, id, issuer);
    PrefixTrans(es, one, later);
  }

  /** The second of them has set the mark. */
  lemma Race(cfg: Config, es: seq<Event>, id: Id, record: RefreshRecord, issuer: string) returns (later: seq<Event>, slow: nat, fast: nat)
    requires Legal(cfg, es) && id in Run(cfg, es).hist.handed && Unspent(Run(cfg, es).db, id, record)
    ensures es <= later && Legal(cfg, later) && Raced(Run(cfg, es), Run(cfg, later), slow, id, record, issuer)
    ensures slow != fast && Holds(Run(cfg, later), record.family, InFlight(fast))
    ensures WinCount(cfg, later, id) == WinCount(cfg, es, id) + 1 && DropCount(cfg, later, id) == DropCount(cfg, es, id)
  {
    var two;
    two, slow, fast := BothRead(cfg, es, id, record, issuer);
    later := WinMark(cfg, two, fast, id);
    PrefixTrans(es, two, later);
    RaceStates(Run(cfg, es), Run(cfg, two), Run(cfg, later), slow, fast, id, record, issuer);
  }

  ghost predicate Raced(s: Sys, t: Sys, slow: nat, id: Id, record: RefreshRecord, issuer: string) {
    && Quietly(s, t) && t.db == HSetNx(s.db, id)
    && slow in t.reqs && t.reqs[slow] == Mark(id, record, issuer)
  }

  lemma RaceStates(s: Sys, two: Sys, t: Sys, slow: nat, fast: nat, id: Id, record: RefreshRecord, issuer: string)
    requires Unspent(s.db, id, record) && Calm(s, two) && slow != fast && fast !in s.reqs
    requires two.reqs == s.reqs[slow := Mark(id, record, issuer)][fast := Mark(id, record, issuer)] && Won(two, t, fast)
    ensures Raced(s, t, slow, id, record, issuer) && Holds(t, record.family, InFlight(fast))
  {
  }

  /** The chain can fork: from every run in which a client holds an unused refresh token, two exchanges read its record, one
    * wins the mark, the record is deleted, and the other wins too. */
  lemma TwoHolders(cfg: Config, es: seq<Event>, id: Id, record: RefreshRecord, issuer: string)
    returns (later: seq<Event>, slow: nat, fast: nat)
    requires Legal(cfg, es) && id in Run(cfg, es).hist.handed && Unspent(Run(cfg, es).db, id, record)
    ensures es <= later && Legal(cfg, later) && slow != fast
    ensures Holds(Run(cfg, later), record.family, InFlight(slow)) && Holds(Run(cfg, later), record.family, InFlight(fast))
  {
    var raced;
    raced, slow, fast := Race(cfg, es, id, record, issuer);
    var gone := DeleteKey(cfg, raced, RefreshKey(id));
    later := WinMark(cfg, gone, slow, id);
    PrefixTrans(es, raced, gone);
    PrefixTrans(es, gone, later);
  }

  /** A third presentation of `id` trips the detector. */
  lemma Detect(cfg: Config, es: seq<Event>, id: Id, record: RefreshRecord, issuer: string)
    returns (swept: seq<Event>, detector: nat, ranged: seq<Event>)
    requires Legal(cfg, es) && id in Run(cfg, es).hist.handed && Indexed(Run(cfg, es), record.family, id)
    requires id in Run(cfg, es).db.hashes && Run(cfg, es).db.hashes[id].used && HGetAll(Run(cfg, es).db, id) == Some(record)
    ensures es <= ranged <= swept && Legal(cfg, swept) && Quietly(Run(cfg, es), Run(cfg, swept)) && id !in Run(cfg, swept).db.hashes
    ensures forall q :: q in Run(cfg, es).reqs ==> q in Run(cfg, swept).reqs && Run(cfg, swept).reqs[q] == Run(cfg, es).reqs[q]
    ensures |ranged| < |swept| && swept[|ranged|].Exec? && swept[|ranged|].r == detector
    ensures AtRange(Run(cfg, ranged), detector, FamilyGroup(record.family))
    ensures RefreshKey(id) in ZRange(Run(cfg, ranged).db, FamilyGroup(record.family))
    ensures detector in Run(cfg, swept).reqs && Run(cfg, swept).reqs[detector] ==
            Done(SweepOutcome(FamilyGroup(record.family), ZRange(Run(cfg, ranged).db, FamilyGroup(record.family))))
    ensures WinCount(cfg, swept, id) == WinCount(cfg, es, id) && DropCount(cfg, swept, id) == DropCount(cfg, es, id) + 1
  {
    var lost;
    lost, detector := Reuse(cfg, es, id, record, issuer);
    swept, ranged := SweepAlone(cfg, lost, detector, FamilyGroup(record.family), id);
    PrefixTrans(es, lost, ranged);
    QuietlyTrans(Run(cfg, es), Run(cfg, lost), Run(cfg, swept));
  }

  /** Presenting a used refresh token. */
  lemma Reuse(cfg: Config, es: seq<Event>, id: Id, record: RefreshRecord, issuer: string) returns (later: seq<Event>, r: nat)
    requires Legal(cfg, es) && id in Run(cfg, es).hist.handed
    requires id in Run(cfg, es).db.hashes && Run(cfg, es).db.hashes[id].used && HGetAll(Run(cfg, es).db, id) == Some(record)
    ensures es <= later && Legal(cfg, later) && Calm(Run(cfg, es), Run(cfg, later)) && r !in Run(cfg, es).reqs
    ensures Run(cfg, later).reqs == Run(cfg, es).reqs[r := Sweep(CutStamp, FamilyGroup(record.family), 0, {})]
    ensures WinCount(cfg, later, id) == WinCount(cfg, es, id) && DropCount(cfg, later, id) == DropCount(cfg, es, id)
  {
    var read;
    read, r := Present(cfg, es, id, issuer);
    later := LoseMark(cfg, read, r, id);
    PrefixTrans(es, read, later);
    ReuseStates(Run(cfg, es), Run(cfg, read), Run(cfg, later), r, id, record, issuer);
  }

  lemma ReuseStates(s: Sys, m: Sys, t: Sys, r: nat, id: Id, record: RefreshRecord, issuer: string)
    requires Calm(s, m) && Calm(m, t) && m.reqs == s.reqs[r := Mark(id, record, issuer)]
    requires t.reqs == m.reqs[r := Sweep(CutStamp, FamilyGroup(record.family), 0, {})]
    ensures Calm(s, t) && t.reqs == s.reqs[r := Sweep(CutStamp, FamilyGroup(record.family), 0, {})]
  {
  }

  /** The detector went off and succeeded: its sweep saw `id`, the family is unflawed and the token is dead. */
  ghost predicate Killed(cfg: Config, ranged: seq<Event>, swept: seq<Event>, detector: nat, id: Id, f: Id) {
    && ranged <= swept && |ranged| < |swept| && RefreshKey(id) in ZRange(Run(cfg, ranged).db, FamilyGroup(f))
    && SweptBy(cfg, swept, |ranged|, detector, FamilyGroup(f), |ZRange(Run(cfg, ranged).db, FamilyGroup(f))|)
    && FamilyGroup(f) !in Run(cfg, swept).hist.flawed && Dead(Run(cfg, swept), RefreshKey(id))
  }

  lemma KilledBySweep(cfg: Config, ranged: seq<Event>, swept: seq<Event>, detector: nat, id: Id, f: Id)
    requires ranged <= swept && |ranged| < |swept| && swept[|ranged|].Exec? && swept[|ranged|].r == detector
    requires AtRange(Run(cfg, ranged), detector, FamilyGroup(f)) && RefreshKey(id) in ZRange(Run(cfg, ranged).db, FamilyGroup(f))
    requires detector in Run(cfg, swept).reqs && Run(cfg, swept).reqs[detector] ==
             Done(SweepOutcome(FamilyGroup(f), ZRange(Run(cfg, ranged).db, FamilyGroup(f))))
    requires FamilyGroup(f) !in Run(cfg, swept).hist.flawed && id !in Run(cfg, swept).db.hashes
    ensures Killed(cfg, ranged, swept, detector, id, f)
  {
    assert swept[..|ranged|] == ranged;
  }

  /** Two exchanges read the record, one wins, a third trips the detector. */
  lemma RaceThenDetect(cfg: Config, es: seq<Event>, id: Id, record: RefreshRecord, issuer: string)
    returns (swept: seq<Event>, ranged: seq<Event>, slow: nat, detector: nat)
    requires Legal(cfg, es) && Holding(Run(cfg, es), id, record) && FamilyGroup(record.family) !in Run(cfg, es).hist.flawed
    ensures es <= swept && Legal(cfg, swept) && Killed(cfg, ranged, swept, detector, id, record.family)
    ensures id !in Run(cfg, swept).db.hashes && slow in Run(cfg, swept).reqs && Run(cfg, swept).reqs[slow] == Mark(id, record, issuer)
    ensures WinCount(cfg, swept, id) == WinCount(cfg, es, id) + 1 && DropCount(cfg, swept, id) == DropCount(cfg, es, id) + 1
  {
    var raced;
    var fast;
    raced, slow, fast := Race(cfg, es, id, record, issuer);
    RacedHolds(Run(cfg, es), Run(cfg, raced), slow, id, record, issuer);
    swept, detector, ranged := Detect(cfg, raced, id, record, issuer);
    PrefixTrans(es, raced, swept);
    KilledBySweep(cfg, ranged, swept, detector, id, record.family);
  }

  lemma RacedHolds(s: Sys, t: Sys, slow: nat, id: Id, record: RefreshRecord, issuer: string)
    requires Holding(s, id, record) && Raced(s, t, slow, id, record, issuer)
    ensures id in t.hist.handed && Indexed(t, record.family, id) && id in t.db.hashes && t.db.hashes[id].used
    ensures HGetAll(t.db, id) == Some(record) && t.hist.flawed == s.hist.flawed
  {
  }

  /** Neither one winner nor the death of a swept family holds against an exchange that has read its record
    * before: from every legal run in which a client holds an unused, indexed refresh token of an unflawed
    * family, there is a continuation in which the token is swept and dead, is won a second time, and its
    * exchange hands out a pair of the killed family that works. */
  lemma SweptTokenExchanges(cfg: Config, es: seq<Event>, id: Id, record: RefreshRecord, issuer: string)
    returns (ranged: seq<Event>, swept: seq<Event>, won: seq<Event>, later: seq<Event>,
             slow: nat, detector: nat, access: TokenClaims, next: Id)
    requires Legal(cfg, es) && Holding(Run(cfg, es), id, record) && FamilyGroup(record.family) !in Run(cfg, es).hist.flawed
    requires Viable(cfg) && cfg.accessTtl.value <= cfg.refreshTtl
    ensures es <= swept <= won <= later && |won| == |swept| + 1 && Legal(cfg, later)
    ensures Killed(cfg, ranged, swept, detector, id, record.family)
    ensures WinCount(cfg, won, id) == WinCount(cfg, es, id) + 2 && DropCount(cfg, won, id) == DropCount(cfg, es, id) + 1
    ensures PairReady(Run(cfg, later), slow, Plan(issuer, record.subject, record.audience, None, [], Some(record.family)),
                      record.family, access, next)
  {
    swept, ranged, slow, detector := RaceThenDetect(cfg, es, id, record, issuer);
    won := WinMark(cfg, swept, slow, id);
    later, access, next := IssueAlone(cfg, won, slow, record.family);
  }

  /** The story has a beginning: from the empty run, under any settings that let the default issue through,
    * a first pair leaves a client holding such a token. */
  lemma FirstPair(cfg: Config, issuer: string, subject: string, audience: seq<string>, f: Id)
    returns (es: seq<Event>, r: nat, access: TokenClaims, id: Id)
    requires Viable(cfg) && cfg.accessTtl.value <= cfg.refreshTtl && audience != []
    ensures Legal(cfg, es) && FamilyGroup(f) !in Run(cfg, es).hist.flawed
    ensures Holding(Run(cfg, es), id, RefreshRecord(subject, audience, f))
  {
    var plan := Plan(issuer, subject, audience, None, [], None);
    var begun;
    begun, r := NewFamily(cfg, [], f, plan);
    es, access, id := IssueAlone(cfg, begun, r, f);
  }
}
