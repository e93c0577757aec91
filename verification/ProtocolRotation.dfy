/** Rotation over every run: one winner per refresh token, one chain per family. */
module ProtocolRotation {
  import opened Common
  import opened Redis
  import opened Claims
  import opened Protocol
  import opened ProtocolInv
  import opened ProtocolFamily
  import opened ProtocolCover
  import opened ProtocolTheorems

  // ---------- one winner ----------

  /** An exchange of `id` gets past the used mark. */
  ghost predicate Wins(s: Sys, e: Event, id: Id) {
    e.Exec? && e.r in s.reqs && s.reqs[e.r].Mark? && s.reqs[e.r].id == id && HSetNxWins(s.db, id)
  }

  /** The key of `id` disappears, by deletion or expiry. */
  ghost predicate Drops(cfg: Config, s: Sys, e: Event, id: Id) {
    id in s.db.hashes && id !in Step(cfg, s, e).db.hashes
  }

  ghost function WinCount(cfg: Config, es: seq<Event>, id: Id): nat {
    if es == [] then 0
    else
      var front := es[..|es| - 1];
      WinCount(cfg, front, id) + if Wins(Run(cfg, front), es[|es| - 1], id) then 1 else 0
  }

  ghost function DropCount(cfg: Config, es: seq<Event>, id: Id): nat {
    if es == [] then 0
    else
      var front := es[..|es| - 1];
      DropCount(cfg, front, id) + if Drops(cfg, Run(cfg, front), es[|es| - 1], id) then 1 else 0
  }

  predicate Used(db: Db, id: Id) {
    id in db.hashes && db.hashes[id].used
  }

  /** HSETNX answers yes to one caller, and only losing the key takes the mark away. */
  lemma MarkKept(cfg: Config, s: Sys, e: Event, id: Id)
    requires KnownKeys(s.hist, s.db) && Enabled(s, e)
    ensures Wins(s, e, id) ==> !Used(s.db, id) && Used(Step(cfg, s, e).db, id)
    ensures Used(s.db, id) && !Drops(cfg, s, e, id) ==> Used(Step(cfg, s, e).db, id)
  {
    if id in s.db.hashes { assert KnownHash(s.hist, id, s.db.hashes[id]); }
    if e.Exec? && Used(s.db, id) { MarkApply(Command(cfg, s.reqs[e.r], e.uuid), s.db, s.now, id); }
  }

  lemma MarkApply(cmd: Cmd, db: Db, now: nat, id: Id)
    requires Used(db, id)
    ensures id in Apply(cmd, db, now).hashes ==> Used(Apply(cmd, db, now), id)
  {
  }

  lemma {:induction false} WinsWithinDrops(cfg: Config, es: seq<Event>, id: Id)
    requires Legal(cfg, es)
    ensures WinCount(cfg, es, id) <= DropCount(cfg, es, id) + if Used(Run(cfg, es).db, id) then 1 else 0
  {
    if es != [] {
      var front := es[..|es| - 1];
      WinsWithinDrops(cfg, front, id);
      RunInv(cfg, front);
      MarkKept(cfg, Run(cfg, front), es[|es| - 1], id);
      assert Drops(cfg, Run(cfg, front), es[|es| - 1], id) || !Used(Run(cfg, front).db, id) || Used(Run(cfg, es).db, id);
    }
  }

  /** One winner: under every interleaving the exchanges of one refresh token that get past the
    * mark number at most one plus the times its key was deleted or expired; so while the record
    * stays present there is at most one. */
  lemma OneWinner(cfg: Config, es: seq<Event>, id: Id)
    requires Legal(cfg, es)
    ensures WinCount(cfg, es, id) <= 1 + DropCount(cfg, es, id)
  {
    WinsWithinDrops(cfg, es, id);
  }

  /** While the record stays present, at most one exchange gets past the mark, and none once one did. */
  lemma {:induction false} OneWinnerWhilePresent(cfg: Config, es: seq<Event>, i: nat, id: Id)
    requires Legal(cfg, es) && i <= |es| && DropCount(cfg, es, id) == DropCount(cfg, es[..i], id)
    ensures WinCount(cfg, es, id) + (if Used(Run(cfg, es[..i]).db, id) then 1 else 0)
            <= WinCount(cfg, es[..i], id) + (if Used(Run(cfg, es).db, id) then 1 else 0)
    decreases |es|
  {
    if i == |es| {
      assert es[..i] == es;
    } else {
      var front := es[..|es| - 1];
      assert front[..i] == es[..i];
      DropsMonotone(cfg, front, i, id);
      OneWinnerWhilePresent(cfg, front, i, id);
      RunInv(cfg, front);
      MarkKept(cfg, Run(cfg, front), es[|es| - 1], id);
    }
  }

  lemma {:induction false} DropsMonotone(cfg: Config, es: seq<Event>, i: nat, id: Id)
    requires i <= |es|
    ensures DropCount(cfg, es[..i], id) <= DropCount(cfg, es, id)
    decreases |es|
  {
    if i == |es| {
      assert es[..i] == es;
    } else {
      assert es[..|es| - 1][..i] == es[..i];
      DropsMonotone(cfg, es[..|es| - 1], i, id);
    }
  }

  /** One event and the mark: a key that is there is marked exactly if it was won, now or before. */
  ghost predicate Recorded(s: Sys, id: Id, wins: nat) {
    (wins > 0 ==> id in s.hist.ids) && (id in s.db.hashes ==> (s.db.hashes[id].used <==> wins > 0))
  }

  /** The command that marks `id` is the one of an exchange, and the one that stores it draws it. */
  lemma MarkCommand(cfg: Config, s: Sys, r: nat, uuid: Id, id: Id)
    requires r in s.reqs && KnownPc(s.hist, s.reqs[r])
    ensures var cmd := Command(cfg, s.reqs[r], uuid);
      && (cmd.CmdHSetNx? && cmd.id == id <==> s.reqs[r].Mark? && s.reqs[r].id == id)
      && (cmd.CmdHSetNx? ==> cmd.id in s.hist.ids) && (cmd.CmdHSet? ==> cmd.id == uuid)
    ensures s.hist.ids <= Execute(cfg, s, r, uuid).hist.ids
  {
  }

  lemma RecordedExec(cfg: Config, s: Sys, r: nat, uuid: Id, id: Id, wins: nat)
    requires Known(s) && r in s.reqs && uuid !in s.hist.ids && Recorded(s, id, wins)
    ensures Recorded(Execute(cfg, s, r, uuid), id, wins + if Wins(s, Exec(r, uuid), id) then 1 else 0)
  {
    assert KnownPc(s.hist, s.reqs[r]);
    if id in s.db.hashes { assert KnownHash(s.hist, id, s.db.hashes[id]); }
    MarkCommand(cfg, s, r, uuid, id);
    if id in Execute(cfg, s, r, uuid).db.hashes {
      ApplyUsed(Command(cfg, s.reqs[r], uuid), s.db, s.now, id);
    }
  }

  lemma RecordedStep(cfg: Config, s: Sys, e: Event, id: Id, wins: nat)
    requires Known(s) && Enabled(s, e) && Recorded(s, id, wins)
    ensures Recorded(Step(cfg, s, e), id, wins + if Wins(s, e, id) then 1 else 0)
  {
    if e.Exec? { RecordedExec(cfg, s, e.r, e.uuid, id, wins); }
  }

  lemma {:induction false} RecordedRun(cfg: Config, es: seq<Event>, id: Id)
    requires Legal(cfg, es)
    ensures Recorded(Run(cfg, es), id, WinCount(cfg, es, id))
  {
    if es != [] {
      var front := es[..|es| - 1];
      RecordedRun(cfg, front, id);
      RunInv(cfg, front);
      RecordedStep(cfg, Run(cfg, front), es[|es| - 1], id, WinCount(cfg, front, id));
    }
  }

  /** Exactly when an exchange gets past the mark: it is the first one, or the key of the token is gone. */
  lemma WinsIff(cfg: Config, es: seq<Event>, r: nat, uuid: Id, id: Id)
    requires Legal(cfg, es) && r in Run(cfg, es).reqs && Run(cfg, es).reqs[r].Mark? && Run(cfg, es).reqs[r].id == id
    ensures Wins(Run(cfg, es), Exec(r, uuid), id) <==> WinCount(cfg, es, id) == 0 || id !in Run(cfg, es).db.hashes
  {
    RecordedRun(cfg, es, id);
  }

  /** A hash left with only `used` reads as absent, and its token cannot win again while it lasts. */
  lemma JunkIsAbsent(cfg: Config, es: seq<Event>, id: Id)
    requires Legal(cfg, es) && id in Run(cfg, es).db.hashes && HGetAll(Run(cfg, es).db, id) == None
    ensures !HSetNxWins(Run(cfg, es).db, id)
    ensures forall issuer, uuid :: Next(cfg, GetRec(id, issuer), Run(cfg, es).db, Run(cfg, es).now, uuid) == Done(Rejected(NotValid))
  {
    RunInv(cfg, es);
  }

  // ---------- one chain ----------

  /** How many exchanges marked a record of `f` that had disappeared since they read it. */
  ghost function LateMarks(cfg: Config, es: seq<Event>, f: Id): nat {
    if es == [] then 0
    else
      var front := es[..|es| - 1];
      LateMarks(cfg, front, f) + if LateMark(Run(cfg, front), es[|es| - 1], f) then 1 else 0
  }

  /** One chain: over every run, the unused refresh tokens of a family with clients and the issues under way
    * number at most one plus the late marks, whatever fails, lapses, is revoked or is deleted. */
  lemma {:induction false} HolderBound(cfg: Config, es: seq<Event>, f: Id)
    requires Legal(cfg, es)
    ensures |Holders(Run(cfg, es), f)| <= 1 + LateMarks(cfg, es, f)
  {
    if es == [] {
      SubsetSize(Holders(INIT, f), {});
    } else {
      var front := es[..|es| - 1];
      HolderBound(cfg, front, f);
      RunInv(cfg, front);
      HoldersStep(cfg, Run(cfg, front), es[|es| - 1], f);
    }
  }

  /** A late mark leaves a key without a lifetime: it reads as absent, refuses every further mark and never expires. */
  lemma LateMarkStays(cfg: Config, s: Sys, e: Event, f: Id, later: nat)
    requires LateMark(s, e, f)
    ensures var id, db := s.reqs[e.r].id, Expire(Step(cfg, s, e).db, later);
      HSetNxWins(s.db, id) && id in db.hashes && HGetAll(db, id) == None && !HSetNxWins(db, id)
  {
  }

  /** So without a late mark two holders are one. */
  lemma OneHolder(cfg: Config, es: seq<Event>, f: Id, a: Holder, b: Holder)
    requires Legal(cfg, es) && LateMarks(cfg, es, f) == 0
    requires Holds(Run(cfg, es), f, a) && Holds(Run(cfg, es), f, b)
    ensures a == b
  {
    HolderBound(cfg, es, f);
    if a != b {
      SubsetSize({a, b}, Holders(Run(cfg, es), f));
    }
  }

  /** No record of `f` is lost from one state to the next, by deletion or by expiry. */
  ghost predicate NoRecordLost(s: Sys, t: Sys, f: Id) {
    forall id :: HGetAll(s.db, id) != None && HGetAll(s.db, id).value.family == f ==> HGetAll(t.db, id) != None
  }

  /** The family has not been revoked yet, and none of its records has expired. */
  ghost predicate Intact(cfg: Config, es: seq<Event>, f: Id) {
    es == [] || (Intact(cfg, es[..|es| - 1], f) && NoRecordLost(Run(cfg, es[..|es| - 1]), Run(cfg, es), f))
  }

  /** Exchanges of `f` find the record they read. */
  ghost predicate MarksFind(s: Sys, f: Id) {
    forall r :: r in s.reqs && s.reqs[r].Mark? && s.reqs[r].rec.family == f ==> HGetAll(s.db, s.reqs[r].id) == Some(s.reqs[r].rec)
  }

  lemma MarksFindStep(cfg: Config, s: Sys, e: Event, f: Id)
    requires Known(s) && Bound(s) && Enabled(s, e) && MarksFind(s, f) && NoRecordLost(s, Step(cfg, s, e), f)
    ensures MarksFind(Step(cfg, s, e), f) && !LateMark(s, e, f)
  {
    var t := Step(cfg, s, e);
    BoundStep(cfg, s, e);
    forall r | r in t.reqs && t.reqs[r].Mark? && t.reqs[r].rec.family == f
      ensures HGetAll(t.db, t.reqs[r].id) == Some(t.reqs[r].rec)
    {
      assert BoundPc(t, t.reqs[r]);
      MarkFrom(cfg, s, e, r);
    }
  }

  /** A request at the mark was there before or has just read its record. */
  lemma MarkFrom(cfg: Config, s: Sys, e: Event, r: nat)
    requires Enabled(s, e) && r in Step(cfg, s, e).reqs && Step(cfg, s, e).reqs[r].Mark?
    ensures var pc := Step(cfg, s, e).reqs[r];
      (r in s.reqs && s.reqs[r] == pc) || HGetAll(s.db, pc.id) == Some(pc.rec)
  {
  }

  lemma {:induction false} IntactMarks(cfg: Config, es: seq<Event>, f: Id)
    requires Legal(cfg, es) && Intact(cfg, es, f)
    ensures MarksFind(Run(cfg, es), f) && LateMarks(cfg, es, f) == 0
  {
    if es != [] {
      var front := es[..|es| - 1];
      IntactMarks(cfg, front, f);
      RunInv(cfg, front);
      MarksFindStep(cfg, Run(cfg, front), es[|es| - 1], f);
    }
  }

  /** Until a family is first revoked or one of its records expires, its holders are never more than one. */
  lemma OneHolderWhileIntact(cfg: Config, es: seq<Event>, f: Id)
    requires Legal(cfg, es) && Intact(cfg, es, f)
    ensures |Holders(Run(cfg, es), f)| <= 1
  {
    IntactMarks(cfg, es, f);
    HolderBound(cfg, es, f);
  }

  // ---------- what flawed means ----------

  /** What one event can spoil: see `Flaws` for commands; a group that lapses inside a request's
    * TTL window; a request that stops inside its window. */
  ghost function Spoils(cfg: Config, s: Sys, e: Event): set<GroupKey> {
    match e
    case Tick(d) => Lapsed(s, s.now + d)
    case Exec(r, _) => if r in s.reqs then Flaws(cfg, s, s.reqs[r]) else {}
    case Abort(r, _) => if r in s.reqs then Opened(s.reqs[r]) else {}
    case Begin(_, _, _) => {}
  }

  /** A group is flawed only through one of these events. */
  lemma {:induction false} FlawedHasCause(cfg: Config, es: seq<Event>, g: GroupKey)
    requires Legal(cfg, es) && g in Run(cfg, es).hist.flawed
    ensures exists k: nat :: k < |es| && g in Spoils(cfg, StateAt(cfg, es, k), es[k])
  {
    if es != [] {
      var k: nat := |es| - 1;
      var front := es[..k];
      assert StateAt(cfg, es, k) == Run(cfg, front);
      if g !in Spoils(cfg, Run(cfg, front), es[k]) {
        SpoilStep(cfg, Run(cfg, front), es[k], g);
        FlawedHasCause(cfg, front, g);
        var j: nat :| j < |front| && g in Spoils(cfg, StateAt(cfg, front, j), front[j]);
        assert front[..j] == es[..j];
        assert g in Spoils(cfg, StateAt(cfg, es, j), es[j]);
      }
    }
  }

  lemma SpoilStep(cfg: Config, s: Sys, e: Event, g: GroupKey)
    requires Enabled(s, e)
    ensures g in Step(cfg, s, e).hist.flawed <==> g in s.hist.flawed || g in Spoils(cfg, s, e)
  {
  }
}
