/** Runs built step by step: what one request does when nobody else moves. */
module ProtocolRuns {
  import opened Common
  import opened Redis
  import opened Claims
  import opened Protocol
  import opened ProtocolInv
  import opened ProtocolCover
  import opened ProtocolTheorems
  import opened ProtocolRevocation
  import opened ProtocolRotation

  /** A request number nobody has used. */
  ghost function FreshReq(reqs: map<nat, Pc>): (q: nat)
    ensures q !in reqs
  {
    Above(reqs.Keys)
  }

  ghost function Above(qs: set<nat>): (q: nat)
    ensures forall p :: p in qs ==> p < q
  {
    if qs == {} then 0
    else
      var p :| p in qs;
      var rest := Above(qs - {p});
      assert forall q :: q in qs ==> q == p || q in qs - {p};
      if rest <= p then p + 1 else rest
  }

  /** How often `id` was won and lost goes up with each event that wins or drops it. */
  lemma CountSnoc(cfg: Config, es: seq<Event>, e: Event, id: Id)
    ensures WinCount(cfg, es + [e], id) == WinCount(cfg, es, id) + if Wins(Run(cfg, es), e, id) then 1 else 0
    ensures DropCount(cfg, es + [e], id) == DropCount(cfg, es, id) + if Drops(cfg, Run(cfg, es), e, id) then 1 else 0
  {
    assert (es + [e])[..|es|] == es;
  }

  /** What one executed command changes. */
  ghost predicate Moved(cfg: Config, s: Sys, t: Sys, r: nat, uuid: Id)
    requires r in s.reqs
  {
    var pc := s.reqs[r];
    && t.reqs == s.reqs[r := Next(cfg, pc, s.db, s.now, uuid)]
    && t.db == Apply(Command(cfg, pc, uuid), s.db, s.now)
    && t.now == s.now
    && s.hist.ids <= t.hist.ids && s.hist.handed <= t.hist.handed
    && (pc.Link? && pc.link.IdxTtl? ==> pc.rid in t.hist.handed)
    && t.hist.flawed == s.hist.flawed + Flaws(cfg, s, pc)
    && (forall x :: x in s.hist.regs ==> x in t.hist.regs)
  }

  ghost predicate WinsNow(s: Sys, r: nat, id: Id)
    requires r in s.reqs
  {
    s.reqs[r].Mark? && s.reqs[r].id == id && HSetNxWins(s.db, id)
  }

  lemma ExecuteMoves(cfg: Config, s: Sys, r: nat, uuid: Id)
    requires r in s.reqs
    ensures Moved(cfg, s, Execute(cfg, s, r, uuid), r, uuid)
  {
  }

  lemma ExecuteCounts(cfg: Config, s: Sys, r: nat, uuid: Id, id: Id)
    requires r in s.reqs
    ensures Wins(s, Exec(r, uuid), id) <==> WinsNow(s, r, id)
    ensures Drops(cfg, s, Exec(r, uuid), id) <==> id in s.db.hashes && id !in Execute(cfg, s, r, uuid).db.hashes
  {
  }

  /** Request `r` sends its next command, drawing `uuid` if it draws one. */
  lemma GoWith(cfg: Config, es: seq<Event>, r: nat, uuid: Id, id: Id) returns (later: seq<Event>)
    requires Legal(cfg, es) && r in Run(cfg, es).reqs && uuid !in Run(cfg, es).hist.ids
    ensures later == es + [Exec(r, uuid)] && Legal(cfg, later)
    ensures Moved(cfg, Run(cfg, es), Run(cfg, later), r, uuid)
    ensures WinCount(cfg, later, id) == WinCount(cfg, es, id) + if WinsNow(Run(cfg, es), r, id) then 1 else 0
    ensures DropCount(cfg, later, id) == DropCount(cfg, es, id)
            + if id in Run(cfg, es).db.hashes && id !in Run(cfg, later).db.hashes then 1 else 0
  {
    later := es + [Exec(r, uuid)];
    Snoc(cfg, es, Exec(r, uuid));
    ExecuteMoves(cfg, Run(cfg, es), r, uuid);
    ExecuteCounts(cfg, Run(cfg, es), r, uuid, id);
    CountSnoc(cfg, es, Exec(r, uuid), id);
  }

  /** The same for a step that draws nothing. */
  lemma Go(cfg: Config, es: seq<Event>, r: nat, id: Id) returns (later: seq<Event>)
    requires Legal(cfg, es) && r in Run(cfg, es).reqs && !Draws(Run(cfg, es).reqs[r])
    ensures es <= later && |later| == |es| + 1 && later[|es|].Exec? && later[|es|].r == r && Legal(cfg, later)
    ensures Moved(cfg, Run(cfg, es), Run(cfg, later), r, "")
    ensures WinCount(cfg, later, id) == WinCount(cfg, es, id) + if WinsNow(Run(cfg, es), r, id) then 1 else 0
    ensures DropCount(cfg, later, id) == DropCount(cfg, es, id)
            + if id in Run(cfg, es).db.hashes && id !in Run(cfg, later).db.hashes then 1 else 0
  {
    var s := Run(cfg, es);
    var u := FreshId(s.hist.ids);
    Undrawn(cfg, s.reqs[r], s.db, s.now, u);
    later := GoWith(cfg, es, r, u, id);
  }

  /** Nothing but the requests changed on the way from one state to the other. */
  ghost predicate Calm(s: Sys, t: Sys) {
    t.db == s.db && t.now == s.now && s.hist.ids <= t.hist.ids && s.hist.handed <= t.hist.handed
    && t.hist.flawed == s.hist.flawed
  }

  /** A new request enters. */
  lemma Enter(cfg: Config, es: seq<Event>, op: Op, uuid: Id, id: Id) returns (later: seq<Event>, r: nat)
    requires Legal(cfg, es) && uuid !in Run(cfg, es).hist.ids && uuid !in Named(op)
    requires Named(op) <= Run(cfg, es).hist.handed
    ensures es <= later && |later| == |es| + 1 && Legal(cfg, later) && r !in Run(cfg, es).reqs
    ensures Calm(Run(cfg, es), Run(cfg, later))
    ensures Run(cfg, later).reqs == Run(cfg, es).reqs[r := First(op, uuid)]
    ensures Run(cfg, later).hist.handed == Run(cfg, es).hist.handed + Named(op)
    ensures WinCount(cfg, later, id) == WinCount(cfg, es, id) && DropCount(cfg, later, id) == DropCount(cfg, es, id)
  {
    var s := Run(cfg, es);
    r := FreshReq(s.reqs);
    later := es + [Begin(r, op, uuid)];
    Snoc(cfg, es, Begin(r, op, uuid));
    CountSnoc(cfg, es, Begin(r, op, uuid), id);
  }

  lemma MovedRead(cfg: Config, s: Sys, t: Sys, r: nat)
    requires r in s.reqs && s.reqs[r].GetRec? && HGetAll(s.db, s.reqs[r].id) != None && Moved(cfg, s, t, r, "")
    ensures Calm(s, t) && t.reqs == s.reqs[r := Mark(s.reqs[r].id, HGetAll(s.db, s.reqs[r].id).value, s.reqs[r].issuer)]
  {
  }

  lemma MovedWin(cfg: Config, s: Sys, t: Sys, r: nat)
    requires r in s.reqs && s.reqs[r].Mark? && HSetNxWins(s.db, s.reqs[r].id) && Moved(cfg, s, t, r, "")
    ensures Won(s, t, r)
  {
  }

  lemma MovedLose(cfg: Config, s: Sys, t: Sys, r: nat)
    requires r in s.reqs && s.reqs[r].Mark? && !HSetNxWins(s.db, s.reqs[r].id) && Moved(cfg, s, t, r, "")
    ensures Calm(s, t) && t.reqs == s.reqs[r := Sweep(CutStamp, FamilyGroup(s.reqs[r].rec.family), 0, {})]
  {
    assert HSetNx(s.db, s.reqs[r].id) == s.db;
  }

  /** An exchange that set the mark goes on to issue; on a record that is there it spoils nothing. */
  ghost predicate Won(s: Sys, t: Sys, r: nat)
    requires r in s.reqs && s.reqs[r].Mark?
  {
    var pc := s.reqs[r];
    && t.reqs == s.reqs[r := Build(Plan(pc.issuer, pc.rec.subject, pc.rec.audience, None, [], Some(pc.rec.family)))]
    && t.db == HSetNx(s.db, pc.id) && t.now == s.now
    && s.hist.ids <= t.hist.ids && s.hist.handed <= t.hist.handed
    && (pc.id in s.db.hashes ==> t.hist.flawed == s.hist.flawed)
  }

  lemma PrefixTrans(a: seq<Event>, b: seq<Event>, c: seq<Event>)
    requires a <= b && b <= c
    ensures a <= c
  {
  }

  /** The exchange reads the record. */
  lemma ReadRecord(cfg: Config, es: seq<Event>, r: nat, id: Id) returns (later: seq<Event>)
    requires Legal(cfg, es) && r in Run(cfg, es).reqs && Run(cfg, es).reqs[r].GetRec? && Run(cfg, es).reqs[r].id == id
    requires HGetAll(Run(cfg, es).db, id) != None
    ensures es <= later && |later| == |es| + 1 && Legal(cfg, later)
    ensures Calm(Run(cfg, es), Run(cfg, later))
    ensures Run(cfg, later).reqs ==
            Run(cfg, es).reqs[r := Mark(id, HGetAll(Run(cfg, es).db, id).value, Run(cfg, es).reqs[r].issuer)]
    ensures WinCount(cfg, later, id) == WinCount(cfg, es, id) && DropCount(cfg, later, id) == DropCount(cfg, es, id)
  {
    later := Go(cfg, es, r, id);
    MovedRead(cfg, Run(cfg, es), Run(cfg, later), r);
  }

  lemma PresentStates(s: Sys, m: Sys, t: Sys, r: nat, id: Id, issuer: string)
    requires Calm(s, m) && Calm(m, t) && HGetAll(s.db, id) != None
    requires m.reqs == s.reqs[r := GetRec(id, issuer)]
    requires t.reqs == m.reqs[r := Mark(id, HGetAll(m.db, id).value, issuer)]
    ensures Calm(s, t) && t.reqs == s.reqs[r := Mark(id, HGetAll(s.db, id).value, issuer)]
  {
  }

  /** A client presents a refresh token it has, and the exchange reads the record. */
  lemma Present(cfg: Config, es: seq<Event>, id: Id, issuer: string) returns (later: seq<Event>, r: nat)
    requires Legal(cfg, es) && id in Run(cfg, es).hist.handed && HGetAll(Run(cfg, es).db, id) != None
    ensures es <= later && |later| == |es| + 2 && Legal(cfg, later) && r !in Run(cfg, es).reqs
    ensures Calm(Run(cfg, es), Run(cfg, later))
    ensures Run(cfg, later).reqs == Run(cfg, es).reqs[r := Mark(id, HGetAll(Run(cfg, es).db, id).value, issuer)]
    ensures WinCount(cfg, later, id) == WinCount(cfg, es, id) && DropCount(cfg, later, id) == DropCount(cfg, es, id)
  {
    var begun;
    var u := FreshId(Run(cfg, es).hist.ids + {id});
    begun, r := Enter(cfg, es, Exchange(id, issuer), u, id);
    later := ReadRecord(cfg, begun, r, id);
    PrefixTrans(es, begun, later);
    PresentStates(Run(cfg, es), Run(cfg, begun), Run(cfg, later), r, id, issuer);
  }

  lemma WinMark(cfg: Config, es: seq<Event>, r: nat, id: Id) returns (later: seq<Event>)
    requires Legal(cfg, es) && r in Run(cfg, es).reqs && Run(cfg, es).reqs[r].Mark? && Run(cfg, es).reqs[r].id == id
    requires HSetNxWins(Run(cfg, es).db, id)
    ensures es <= later && |later| == |es| + 1 && Legal(cfg, later)
    ensures Won(Run(cfg, es), Run(cfg, later), r)
    ensures WinCount(cfg, later, id) == WinCount(cfg, es, id) + 1 && DropCount(cfg, later, id) == DropCount(cfg, es, id)
  {
    later := Go(cfg, es, r, id);
    MovedWin(cfg, Run(cfg, es), Run(cfg, later), r);
  }

  /** An exchange that finds the mark set turns to revoking the family. */
  lemma LoseMark(cfg: Config, es: seq<Event>, r: nat, id: Id) returns (later: seq<Event>)
    requires Legal(cfg, es) && r in Run(cfg, es).reqs && Run(cfg, es).reqs[r].Mark? && Run(cfg, es).reqs[r].id == id
    requires !HSetNxWins(Run(cfg, es).db, id)
    ensures es <= later && |later| == |es| + 1 && Legal(cfg, later)
    ensures Calm(Run(cfg, es), Run(cfg, later))
    ensures Run(cfg, later).reqs ==
            Run(cfg, es).reqs[r := Sweep(CutStamp, FamilyGroup(Run(cfg, es).reqs[r].rec.family), 0, {})]
    ensures WinCount(cfg, later, id) == WinCount(cfg, es, id) && DropCount(cfg, later, id) == DropCount(cfg, es, id)
  {
    later := Go(cfg, es, r, id);
    MovedLose(cfg, Run(cfg, es), Run(cfg, later), r);
  }

  // ---------- a sweep that nobody interrupts ----------

  /** The store may change; the clock and the index bookkeeping do not. */
  ghost predicate Quietly(s: Sys, t: Sys) {
    t.now == s.now && s.hist.ids <= t.hist.ids && s.hist.handed <= t.hist.handed && t.hist.flawed == s.hist.flawed
  }

  lemma QuietlyTrans(s: Sys, m: Sys, t: Sys)
    requires Quietly(s, m) && Quietly(m, t)
    ensures Quietly(s, t)
  {
  }

  lemma MovedStamp(cfg: Config, s: Sys, t: Sys, r: nat, g: GroupKey)
    requires r in s.reqs && s.reqs[r] == Sweep(CutStamp, g, 0, {}) && Moved(cfg, s, t, r, "")
    ensures Quietly(s, t) && t.db == s.db && t.reqs == s.reqs[r := Sweep(Cut, g, Secs(s.now), {})]
  {
  }

  lemma MovedCut(cfg: Config, s: Sys, t: Sys, r: nat, g: GroupKey, cutoff: nat)
    requires r in s.reqs && s.reqs[r] == Sweep(Cut, g, cutoff, {}) && Moved(cfg, s, t, r, "")
    ensures Quietly(s, t) && t.db == ZCut(s.db, g, cutoff) && t.reqs == s.reqs[r := Sweep(Range, g, cutoff, {})]
  {
  }

  lemma MovedRange(cfg: Config, s: Sys, t: Sys, r: nat, g: GroupKey, cutoff: nat)
    requires r in s.reqs && s.reqs[r] == Sweep(Range, g, cutoff, {}) && Moved(cfg, s, t, r, "")
    requires ZRange(s.db, g) != {}
    ensures Quietly(s, t) && t.db == s.db && t.reqs == s.reqs[r := Sweep(DelMembers, g, cutoff, ZRange(s.db, g))]
  {
  }

  lemma MovedMembers(cfg: Config, s: Sys, t: Sys, r: nat, g: GroupKey, cutoff: nat, seen: set<Key>)
    requires r in s.reqs && s.reqs[r] == Sweep(DelMembers, g, cutoff, seen) && Moved(cfg, s, t, r, "")
    ensures Quietly(s, t) && t.db == Del(s.db, seen) && t.reqs == s.reqs[r := Sweep(DelGroup, g, cutoff, seen)]
  {
  }

  lemma MovedGroup(cfg: Config, s: Sys, t: Sys, r: nat, g: GroupKey, cutoff: nat, seen: set<Key>)
    requires r in s.reqs && s.reqs[r] == Sweep(DelGroup, g, cutoff, seen) && Moved(cfg, s, t, r, "")
    requires ZRange(s.db, g) <= seen
    ensures Quietly(s, t) && t.db == Del(s.db, {GroupName(g)}) && t.reqs == s.reqs[r := Done(SweepOutcome(g, seen))]
  {
  }

  lemma PruneStates(cfg: Config, s: Sys, m: Sys, t: Sys, r: nat, g: GroupKey)
    requires r in s.reqs && s.reqs[r] == Sweep(CutStamp, g, 0, {}) && Moved(cfg, s, m, r, "") && Moved(cfg, m, t, r, "")
    ensures Quietly(s, t) && t.db == ZCut(s.db, g, Secs(s.now)) && t.reqs == s.reqs[r := Sweep(Range, g, Secs(s.now), {})]
    ensures m.db == s.db && t.db.hashes == s.db.hashes && m.reqs[r].Sweep? && !Draws(m.reqs[r])
  {
    MovedStamp(cfg, s, m, r, g);
    MovedCut(cfg, m, t, r, g, Secs(s.now));
    QuietlyTrans(s, m, t);
  }

  lemma DeleteStates(cfg: Config, s: Sys, m: Sys, t: Sys, r: nat, g: GroupKey, cutoff: nat, seen: set<Key>, id: Id)
    requires r in s.reqs && s.reqs[r] == Sweep(DelMembers, g, cutoff, seen) && Moved(cfg, s, m, r, "") && Moved(cfg, m, t, r, "")
    requires ZRange(s.db, g) == seen && RefreshKey(id) in seen && GroupName(g) !in seen
    ensures Quietly(s, t) && t.reqs == s.reqs[r := Done(SweepOutcome(g, seen))]
    ensures id !in m.db.hashes && id !in t.db.hashes
  {
    MovedMembers(cfg, s, m, r, g, cutoff, seen);
    MovedGroup(cfg, m, t, r, g, cutoff, seen);
    QuietlyTrans(s, m, t);
  }

  lemma RangeStates(cfg: Config, s: Sys, m: Sys, t: Sys, r: nat, g: GroupKey, cutoff: nat, seen: set<Key>)
    requires r in s.reqs && s.reqs[r] == Sweep(Range, g, cutoff, {}) && Moved(cfg, s, m, r, "")
    requires ZRange(s.db, g) == seen != {} && Quietly(m, t) && t.reqs == m.reqs[r := Done(SweepOutcome(g, seen))]
    ensures Quietly(s, t) && t.reqs == s.reqs[r := Done(SweepOutcome(g, seen))]
  {
    MovedRange(cfg, s, m, r, g, cutoff);
    QuietlyTrans(s, m, t);
  }

  /** Clock and ZREMRANGEBYSCORE. */
  lemma PruneAlone(cfg: Config, es: seq<Event>, r: nat, g: GroupKey, id: Id) returns (later: seq<Event>)
    requires Legal(cfg, es) && r in Run(cfg, es).reqs && Run(cfg, es).reqs[r] == Sweep(CutStamp, g, 0, {})
    ensures es <= later && |later| == |es| + 2 && Legal(cfg, later)
    ensures Quietly(Run(cfg, es), Run(cfg, later))
    ensures var s := Run(cfg, es);
      Run(cfg, later).db == ZCut(s.db, g, Secs(s.now)) && Run(cfg, later).reqs == s.reqs[r := Sweep(Range, g, Secs(s.now), {})]
    ensures WinCount(cfg, later, id) == WinCount(cfg, es, id) && DropCount(cfg, later, id) == DropCount(cfg, es, id)
  {
    var one := Go(cfg, es, r, id);
    MovedStamp(cfg, Run(cfg, es), Run(cfg, one), r, g);
    later := Go(cfg, one, r, id);
    PruneStates(cfg, Run(cfg, es), Run(cfg, one), Run(cfg, later), r, g);
    PrefixTrans(es, one, later);
  }

  /** The two DELs. */
  lemma DeleteAlone(cfg: Config, es: seq<Event>, r: nat, g: GroupKey, cutoff: nat, seen: set<Key>, id: Id) returns (later: seq<Event>)
    requires Legal(cfg, es) && r in Run(cfg, es).reqs && Run(cfg, es).reqs[r] == Sweep(DelMembers, g, cutoff, seen)
    requires ZRange(Run(cfg, es).db, g) == seen && RefreshKey(id) in seen && GroupName(g) !in seen && id in Run(cfg, es).db.hashes
    ensures es <= later && |later| == |es| + 2 && Legal(cfg, later)
    ensures Quietly(Run(cfg, es), Run(cfg, later)) && id !in Run(cfg, later).db.hashes
    ensures Run(cfg, later).reqs == Run(cfg, es).reqs[r := Done(SweepOutcome(g, seen))]
    ensures WinCount(cfg, later, id) == WinCount(cfg, es, id) && DropCount(cfg, later, id) == DropCount(cfg, es, id) + 1
  {
    var one := Go(cfg, es, r, id);
    MovedMembers(cfg, Run(cfg, es), Run(cfg, one), r, g, cutoff, seen);
    later := Go(cfg, one, r, id);
    DeleteStates(cfg, Run(cfg, es), Run(cfg, one), Run(cfg, later), r, g, cutoff, seen, id);
    PrefixTrans(es, one, later);
  }

  /** The ZRANGE and what follows it. */
  lemma RangeAlone(cfg: Config, es: seq<Event>, r: nat, g: GroupKey, cutoff: nat, id: Id) returns (later: seq<Event>)
    requires Legal(cfg, es) && r in Run(cfg, es).reqs && Run(cfg, es).reqs[r] == Sweep(Range, g, cutoff, {})
    requires RefreshKey(id) in ZRange(Run(cfg, es).db, g) && GroupName(g) !in ZRange(Run(cfg, es).db, g) && id in Run(cfg, es).db.hashes
    ensures es <= later && |later| == |es| + 3 && Legal(cfg, later)
    ensures Quietly(Run(cfg, es), Run(cfg, later)) && id !in Run(cfg, later).db.hashes
    ensures Run(cfg, later).reqs == Run(cfg, es).reqs[r := Done(SweepOutcome(g, ZRange(Run(cfg, es).db, g)))]
    ensures later[|es|].Exec? && later[|es|].r == r
    ensures WinCount(cfg, later, id) == WinCount(cfg, es, id) && DropCount(cfg, later, id) == DropCount(cfg, es, id) + 1
  {
    var seen := ZRange(Run(cfg, es).db, g);
    var one := Go(cfg, es, r, id);
    MovedRange(cfg, Run(cfg, es), Run(cfg, one), r, g, cutoff);
    later := DeleteAlone(cfg, one, r, g, cutoff, seen, id);
    RangeStates(cfg, Run(cfg, es), Run(cfg, one), Run(cfg, later), r, g, cutoff, seen);
    PrefixTrans(es, one, later);
    assert later[|es|] == one[|es|];
  }

  /** Pruning keeps a member whose score has not passed. */
  lemma CutKeeps(db: Db, g: GroupKey, cutoff: nat, m: Key)
    requires m in ZRange(db, g) && cutoff < db.groups[g].scores[m]
    ensures m in ZRange(ZCut(db, g, cutoff), g) && ZRange(ZCut(db, g, cutoff), g) <= ZRange(db, g)
    ensures ZCut(db, g, cutoff).hashes == db.hashes
  {
    CutRange(db, g, cutoff, m);
    forall k | k in ZRange(ZCut(db, g, cutoff), g) ensures k in ZRange(db, g) {
      CutRange(db, g, cutoff, k);
    }
  }

  /** Index entries are access tokens and refresh tokens, never groups. */
  lemma NoGroupMember(s: Sys, g: GroupKey)
    requires Known(s)
    ensures GroupName(g) !in ZRange(s.db, g)
  {
    if g in s.db.groups {
      assert KnownGroup(s.hist, g, s.db.groups[g]);
      forall m | m in ZRange(s.db, g) ensures m != GroupName(g) {
        assert KnownMember(s.hist, g, m, s.hist.regs[(g, m)]);
      }
    }
  }

  lemma SweepStates(s: Sys, m: Sys, t: Sys, r: nat, g: GroupKey, done: Pc)
    requires Quietly(s, m) && Quietly(m, t) && r in s.reqs
    requires m.reqs == s.reqs[r := Sweep(Range, g, Secs(s.now), {})] && t.reqs == m.reqs[r := done]
    ensures Quietly(s, t) && t.reqs == s.reqs[r := done] && AtRange(m, r, g)
  {
  }

  /** A whole sweep that finds the refresh token `id` in the index; `at` is its ZRANGE. */
  lemma SweepAlone(cfg: Config, es: seq<Event>, r: nat, g: GroupKey, id: Id) returns (later: seq<Event>, ranged: seq<Event>)
    requires Legal(cfg, es) && r in Run(cfg, es).reqs && Run(cfg, es).reqs[r] == Sweep(CutStamp, g, 0, {})
    requires id in Run(cfg, es).db.hashes && RefreshKey(id) in ZRange(Run(cfg, es).db, g)
    requires Secs(Run(cfg, es).now) < Run(cfg, es).db.groups[g].scores[RefreshKey(id)]
    ensures es <= ranged <= later && |later| > |ranged| && Legal(cfg, later)
    ensures Quietly(Run(cfg, es), Run(cfg, later)) && id !in Run(cfg, later).db.hashes
    ensures later[|ranged|].Exec? && later[|ranged|].r == r && AtRange(Run(cfg, ranged), r, g)
    ensures RefreshKey(id) in ZRange(Run(cfg, ranged).db, g)
    ensures Run(cfg, later).reqs == Run(cfg, es).reqs[r := Done(SweepOutcome(g, ZRange(Run(cfg, ranged).db, g)))]
    ensures WinCount(cfg, later, id) == WinCount(cfg, es, id) && DropCount(cfg, later, id) == DropCount(cfg, es, id) + 1
  {
    CutKeeps(Run(cfg, es).db, g, Secs(Run(cfg, es).now), RefreshKey(id));
    RunInv(cfg, es);
    NoGroupMember(Run(cfg, es), g);
    ranged := PruneAlone(cfg, es, r, g, id);
    later := RangeAlone(cfg, ranged, r, g, Secs(Run(cfg, es).now), id);
    SweepStates(Run(cfg, es), Run(cfg, ranged), Run(cfg, later), r, g, Run(cfg, later).reqs[r]);
  }
}
