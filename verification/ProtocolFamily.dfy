/** One refresh family is one chain: rotation never leaves two ways to extend it. */
module ProtocolFamily {
  import opened Common
  import opened Redis
  import opened Claims
  import opened Protocol
  import opened ProtocolInv

  /** Whoever can extend a family: an unused refresh token a client has, or an issue under way. */
  datatype Holder = Spendable(id: Id) | InFlight(r: nat)

  ghost predicate Holds(s: Sys, f: Id, h: Holder) {
    match h
    case Spendable(id) =>
      id in s.hist.handed && id in s.db.hashes && !s.db.hashes[id].used
      && s.db.hashes[id].record.Some? && s.db.hashes[id].record.value.family == f
    case InFlight(r) => r in s.reqs && Issuing(s.reqs[r]) == Some(f)
  }

  /** At most one holder per family, as long as nothing of what `Flaws` lists happened to it. */
  ghost predicate Linear(s: Sys) {
    forall f, a, b :: FamilyGroup(f) !in s.hist.flawed && Holds(s, f, a) && Holds(s, f, b) ==> a == b
  }

  /** What HSETNX leaves in place of a record that is gone is marked used. */
  ghost predicate JunkUsed(db: Db) {
    forall i :: i in db.hashes && db.hashes[i].record == None ==> db.hashes[i].used
  }

  ghost predicate BoundPc(s: Sys, pc: Pc) {
    match pc
    case GetRec(id, _) => id in s.hist.handed
    case Mark(id, rec, _) => id in s.hist.handed && (HGetAll(s.db, id) == None || HGetAll(s.db, id) == Some(rec))
    case Link(step, _, f, rid, _) =>
      HasRid(step) ==> HGetAll(s.db, rid) == None || HGetAll(s.db, rid).value.family == f
    case _ => true
  }

  /** Requests act on the record they read: it can vanish but not change. */
  ghost predicate Bound(s: Sys) {
    forall r :: r in s.reqs ==> BoundPc(s, s.reqs[r])
  }

  ghost predicate FamilyInv(s: Sys) {
    Linear(s) && JunkUsed(s.db) && Bound(s)
  }

  /** A record whose token is known is never written again. */
  lemma RecordsOnlyVanish(cfg: Config, s: Sys, e: Event, id: Id)
    requires Known(s) && Enabled(s, e) && id in s.hist.ids
    ensures HGetAll(Step(cfg, s, e).db, id) == None || HGetAll(Step(cfg, s, e).db, id) == HGetAll(s.db, id)
  {
    if e.Exec? { ApplyRecord(Command(cfg, s.reqs[e.r], e.uuid), s.db, s.now, id); }
  }

  lemma JunkStep(cfg: Config, s: Sys, e: Event)
    requires JunkUsed(s.db) && Enabled(s, e)
    ensures JunkUsed(Step(cfg, s, e).db)
  {
    var t := Step(cfg, s, e);
    forall i | i in t.db.hashes && t.db.hashes[i].record == None ensures t.db.hashes[i].used {
      if e.Exec? { JunkApply(Command(cfg, s.reqs[e.r], e.uuid), s.db, s.now, i); }
    }
  }

  lemma JunkApply(cmd: Cmd, db: Db, now: nat, i: Id)
    requires JunkUsed(db) && i in Apply(cmd, db, now).hashes
    ensures Apply(cmd, db, now).hashes[i].record == None ==> Apply(cmd, db, now).hashes[i].used
  {
  }

  lemma BoundStep(cfg: Config, s: Sys, e: Event)
    requires Known(s) && Bound(s) && Enabled(s, e)
    ensures Bound(Step(cfg, s, e))
  {
    var t := Step(cfg, s, e);
    KnownStep(cfg, s, e);
    forall q | q in t.reqs ensures BoundPc(t, t.reqs[q]) {
      if q in s.reqs && t.reqs[q] == s.reqs[q] {
        assert KnownPc(s.hist, s.reqs[q]) && BoundPc(s, s.reqs[q]);
        BoundStays(cfg, s, e, s.reqs[q]);
      } else if e.Exec? {
        BoundNext(cfg, s, e);
      }
    }
  }

  lemma BoundStays(cfg: Config, s: Sys, e: Event, pc: Pc)
    requires Known(s) && KnownPc(s.hist, pc) && BoundPc(s, pc) && Enabled(s, e)
    requires Grows(s.hist, Step(cfg, s, e).hist)
    ensures BoundPc(Step(cfg, s, e), pc)
  {
    if pc.Mark? { RecordsOnlyVanish(cfg, s, e, pc.id); }
    if pc.Link? && HasRid(pc.link) { RecordsOnlyVanish(cfg, s, e, pc.rid); }
  }

  lemma BoundNext(cfg: Config, s: Sys, e: Event)
    requires Known(s) && Bound(s) && Enabled(s, e) && e.Exec?
    ensures BoundPc(Step(cfg, s, e), Step(cfg, s, e).reqs[e.r])
  {
    var pc := s.reqs[e.r];
    assert KnownPc(s.hist, pc) && BoundPc(s, pc);
    match pc
    case GetRec(_, _) =>
    case Link(step, _, _, rid, _) => if HasRid(step) { RecordsOnlyVanish(cfg, s, e, rid); }
    case _ =>
  }

  // ---------- the chain ----------

  /** An exchange marks a record of `f` that has disappeared since it was read. */
  ghost predicate LateMark(s: Sys, e: Event, f: Id) {
    e.Exec? && e.r in s.reqs && s.reqs[e.r].Mark? && s.reqs[e.r].rec.family == f && s.reqs[e.r].id !in s.db.hashes
  }

  /** Where a holder after a command came from. */
  ghost function Origin(cfg: Config, s: Sys, e: Event, h: Holder): Holder
    requires Enabled(s, e) && e.Exec?
  {
    var pc := s.reqs[e.r];
    if h == InFlight(e.r) && pc.Mark? then Spendable(pc.id)
    else if pc.Link? && pc.link.IdxTtl? && h == Spendable(pc.rid) then InFlight(e.r)
    else h
  }

  lemma OriginHolds(cfg: Config, s: Sys, e: Event, f: Id, h: Holder)
    requires Known(s) && Bound(s) && JunkUsed(s.db) && Enabled(s, e) && e.Exec?
    requires Holds(Step(cfg, s, e), f, h) && !(LateMark(s, e, f) && h == InFlight(e.r))
    ensures Holds(s, f, Origin(cfg, s, e, h))
  {
    var pc := s.reqs[e.r];
    var t := Step(cfg, s, e);
    assert BoundPc(s, pc) && KnownPc(s.hist, pc);
    match h
    case InFlight(q) => if q == e.r { InFlightOrigin(cfg, s, e, f); }
    case Spendable(i) =>
      ApplyRecord(Command(cfg, pc, e.uuid), s.db, s.now, i);
      SpendableOrigin(Command(cfg, pc, e.uuid), s.db, s.now, i);
      assert i in s.hist.ids;
  }

  lemma InFlightOrigin(cfg: Config, s: Sys, e: Event, f: Id)
    requires Bound(s) && JunkUsed(s.db) && Enabled(s, e) && e.Exec?
    requires Holds(Step(cfg, s, e), f, InFlight(e.r)) && !LateMark(s, e, f)
    ensures Holds(s, f, Origin(cfg, s, e, InFlight(e.r)))
  {
    assert BoundPc(s, s.reqs[e.r]);
  }

  lemma SpendableOrigin(cmd: Cmd, db: Db, now: nat, i: Id)
    requires i in Apply(cmd, db, now).hashes && !Apply(cmd, db, now).hashes[i].used
    requires !(cmd.CmdHSet? && cmd.id == i)
    ensures i in db.hashes && !db.hashes[i].used
  {
  }

  lemma OriginInjective(cfg: Config, s: Sys, e: Event, f: Id, a: Holder, b: Holder)
    requires Known(s) && Bound(s) && JunkUsed(s.db) && Enabled(s, e) && e.Exec?
    requires Holds(Step(cfg, s, e), f, a) && Holds(Step(cfg, s, e), f, b)
    requires Origin(cfg, s, e, a) == Origin(cfg, s, e, b)
    ensures a == b
  {
  }

  lemma LinearAt(cfg: Config, s: Sys, e: Event, f: Id, a: Holder, b: Holder)
    requires Known(s) && FamilyInv(s) && Enabled(s, e) && FamilyGroup(f) !in Step(cfg, s, e).hist.flawed
    requires Holds(Step(cfg, s, e), f, a) && Holds(Step(cfg, s, e), f, b)
    ensures a == b
  {
    if e.Exec? {
      OriginHolds(cfg, s, e, f, a);
      OriginHolds(cfg, s, e, f, b);
      OriginInjective(cfg, s, e, f, a, b);
    } else {
      HoldersQuiet(cfg, s, e, f);
      assert {a, b} <= Holders(Step(cfg, s, e), f);
    }
  }

  lemma LinearStep(cfg: Config, s: Sys, e: Event)
    requires Known(s) && FamilyInv(s) && Enabled(s, e)
    ensures Linear(Step(cfg, s, e))
  {
    var t := Step(cfg, s, e);
    forall f, a, b | FamilyGroup(f) !in t.hist.flawed && Holds(t, f, a) && Holds(t, f, b) ensures a == b {
      LinearAt(cfg, s, e, f, a, b);
    }
  }

  /** A new family has its issue as only holder; other families keep theirs. */
  lemma LinearBegin(cfg: Config, s: Sys, e: Event, f: Id, h: Holder)
    requires Known(s) && Enabled(s, e) && e.Begin? && Holds(Step(cfg, s, e), f, h)
    ensures if e.op.IssuePair? && f == e.uuid then h == InFlight(e.r) else Holds(s, f, h)
  {
    match h
    case Spendable(i) => assert KnownHash(s.hist, i, s.db.hashes[i]);
    case InFlight(r) => if r in s.reqs { assert KnownPc(s.hist, s.reqs[r]); }
  }

  // ---------- how many can extend a family ----------

  ghost function Holders(s: Sys, f: Id): (hs: set<Holder>)
    ensures forall h :: h in hs <==> Holds(s, f, h)
  {
    var spendable := set id | id in s.hist.handed && Holds(s, f, Spendable(id)) :: Spendable(id);
    var inFlight := set r | r in s.reqs && Holds(s, f, InFlight(r)) :: InFlight(r);
    assert forall h :: Holds(s, f, h) ==> if h.Spendable? then h.id in s.hist.handed else h.r in s.reqs;
    spendable + inFlight
  }

  /** Holders with different origins are at most as many as their origins. */
  lemma {:induction false} OriginsAsMany(cfg: Config, s: Sys, e: Event, f: Id, hs: set<Holder>, origins: set<Holder>)
    requires Known(s) && Bound(s) && JunkUsed(s.db) && Enabled(s, e) && e.Exec?
    requires forall h :: h in hs ==> Holds(Step(cfg, s, e), f, h) && Origin(cfg, s, e, h) in origins
    ensures |hs| <= |origins|
  {
    if hs != {} {
      var x :| x in hs;
      forall h | h in hs - {x} ensures Origin(cfg, s, e, h) in origins - {Origin(cfg, s, e, x)} {
        if Origin(cfg, s, e, h) == Origin(cfg, s, e, x) {
          OriginInjective(cfg, s, e, f, h, x);
        }
      }
      OriginsAsMany(cfg, s, e, f, hs - {x}, origins - {Origin(cfg, s, e, x)});
    }
  }

  lemma HoldersExec(cfg: Config, s: Sys, e: Event, f: Id)
    requires Known(s) && Bound(s) && JunkUsed(s.db) && Enabled(s, e) && e.Exec?
    ensures |Holders(Step(cfg, s, e), f)| <= |Holders(s, f)| + if LateMark(s, e, f) then 1 else 0
  {
    var after := Holders(Step(cfg, s, e), f);
    var old' := if LateMark(s, e, f) then after - {InFlight(e.r)} else after;
    forall h | h in old' ensures Origin(cfg, s, e, h) in Holders(s, f) {
      OriginHolds(cfg, s, e, f, h);
    }
    OriginsAsMany(cfg, s, e, f, old', Holders(s, f));
  }

  /** Creating a family gives it its one holder; every other event that sends no command adds none. */
  lemma HoldersQuiet(cfg: Config, s: Sys, e: Event, f: Id)
    requires Known(s) && Enabled(s, e) && !e.Exec?
    ensures if e.Begin? && e.op.IssuePair? && f == e.uuid then Holders(Step(cfg, s, e), f) <= {InFlight(e.r)}
            else Holders(Step(cfg, s, e), f) <= Holders(s, f)
  {
    forall h | h in Holders(Step(cfg, s, e), f)
      ensures if e.Begin? && e.op.IssuePair? && f == e.uuid then h == InFlight(e.r) else Holds(s, f, h)
    {
      if e.Begin? { LinearBegin(cfg, s, e, f, h); }
    }
  }

  /** One event adds a holder to a family only by creating it or by a late mark. */
  lemma HoldersStep(cfg: Config, s: Sys, e: Event, f: Id)
    requires Known(s) && Bound(s) && JunkUsed(s.db) && Enabled(s, e)
    ensures |Holders(Step(cfg, s, e), f)| <= 1 || |Holders(Step(cfg, s, e), f)| <= |Holders(s, f)| + if LateMark(s, e, f) then 1 else 0
  {
    if e.Exec? {
      HoldersExec(cfg, s, e, f);
    } else {
      HoldersQuiet(cfg, s, e, f);
      var before := if e.Begin? && e.op.IssuePair? && f == e.uuid then {InFlight(e.r)} else Holders(s, f);
      SubsetSize(Holders(Step(cfg, s, e), f), before);
    }
  }

  lemma FamilyStep(cfg: Config, s: Sys, e: Event)
    requires Known(s) && FamilyInv(s) && Enabled(s, e)
    ensures FamilyInv(Step(cfg, s, e))
  {
    LinearStep(cfg, s, e);
    JunkStep(cfg, s, e);
    BoundStep(cfg, s, e);
  }
}
