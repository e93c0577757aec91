/** Single flight: any number of lookups interleave, one read, write or lock operation at a time. */
module JwkFlight {
  import opened Common
  import opened JwkCache

  type Task = nat

  /** Where a lookup of `kid` stands in `public_key`. `asked` is when it was found too early to refresh,
    * `Failed` carries the error of its own trip. An answer keeps what it rests on: whether the trip was its
    * own, when it asked for leave to make one, the moment of the read that decided, and how much of the log was
    * there. */
  datatype Pc =
    | Arrived(kid: string)
    | Queued(kid: string)
    | Entered(kid: string)
    | Missed(kid: string)
    | Barred(kid: string, asked: nat)
    | TryStale(kid: string, asked: nat)
    | TryFresh(kid: string, asked: nat)
    | Ready(kid: string)
    | InFlight(kid: string, started: nat)
    | Failed(kid: string, error: JwkError)
    | Answered(kid: string, result: Result<Jwk, JwkError>, own: bool, asked: nat, at: nat, logged: nat)
  {
    predicate Holding() {
      !Arrived? && !Queued? && !Answered?
    }
  }

  /** `since` says when each lookup began; `starts` lists every trip begun, `trips` the ones that are over. */
  datatype State = State(
    cache: CacheState, holder: Option<Task>, clock: nat, tasks: map<Task, Pc>, since: map<Task, nat>, starts: seq<nat>, trips: seq<Trip>)

  const START := State(COLD, None, 0, map[], map[], [], [])

  datatype Event =
    | Tick(d: nat)
    | Begin(task: Task, kid: string)
    | Move(task: Task)
    | Land(task: Task, seen: nat)

  function Put(s: State, t: Task, pc: Pc): State {
    s.(tasks := s.tasks[t := pc], holder := if pc.Holding() then Some(t) else if s.holder == Some(t) then None else s.holder)
  }

  /** The answer given now. */
  function Reply(s: State, kid: string, r: Result<Jwk, JwkError>, own: bool, asked: nat, at: nat): Pc {
    Answered(kid, r, own, asked, at, |s.trips|)
  }

  function AnswerOr(s: State, t: Task, found: Option<Jwk>, own: bool, asked: nat, otherwise: Pc): State {
    Put(s, t, if found.Some? then Reply(s, otherwise.kid, Ok(found.value), own, asked, s.clock) else otherwise)
  }

  /** One step of a lookup that is not waiting for the key service. */
  function MoveTask(l: Limits, s: State, t: Task, pc: Pc): State {
    var c, now, kid := s.cache, s.clock, pc.kid;
    match pc
    case Arrived(_) => AnswerOr(s, t, Held(c, l.ttl, kid, now), false, now, Queued(kid))
    case Queued(_) => if s.holder == None then Put(s, t, Entered(kid)) else s
    case Entered(_) => AnswerOr(s, t, Held(c, l.ttl, kid, now), false, now, Missed(kid))
    case Missed(_) =>
      if Elapsed(c.lastAttempt, l.missInterval, now)
      then Put(s, t, Ready(kid)).(cache := c.(lastAttempt := Some(now)))
      else Put(s, t, Barred(kid, now))
    case Barred(_, asked) =>
      Put(s, t, if c.lastFailure.Some? && !Elapsed(c.lastFailure, l.missInterval, now) then TryStale(kid, asked) else TryFresh(kid, asked))
    case TryStale(_, asked) => AnswerOr(s, t, Held(c, l.MaxAge(), kid, now), false, asked, TryFresh(kid, asked))
    case TryFresh(_, asked) => Put(s, t, if Younger(c, l.ttl, now) then Reply(s, kid, Err(NotFound), false, asked, asked) else Ready(kid))
    case Ready(_) =>
      Put(s, t, InFlight(kid, now)).(cache := c.(lastAttempt := Some(now)), starts := s.starts + [now])
    case InFlight(_, _) => s
    case Failed(_, e) => AnswerOr(s, t, Held(c, l.MaxAge(), kid, now), true, now, Reply(s, kid, Err(e), true, now, now))
    case Answered(_, _, _, _, _, _) => s
  }

  /** The key service answers, and the answer is recorded. */
  function LandTask(s: State, t: Task, pc: Pc, seen: nat, outcome: Result<KeySet, JwkError>): State
    requires pc.InFlight?
  {
    var done := s.(trips := s.trips + [Trip(pc.kid, pc.started, seen, s.clock, outcome)]);
    match outcome
    case Ok(keys) =>
      Put(done, t, Reply(done, pc.kid, Lookup(keys, pc.kid), true, s.clock, s.clock))
        .(cache := s.cache.(entry := Some(Snapshot(keys, s.clock)), lastFailure := None))
    case Err(e) =>
      Put(done, t, Failed(pc.kid, e)).(cache := s.cache.(lastFailure := Some(s.clock)))
  }

  /** An event that the state does not allow changes nothing. `up` is the key service. */
  function Next(l: Limits, up: Upstream, s: State, e: Event): State {
    match e
    case Tick(d) => s.(clock := s.clock + d)
    case Begin(t, kid) => if t in s.tasks && !s.tasks[t].Answered? then s else Put(s, t, Arrived(kid)).(since := s.since[t := s.clock])
    case Move(t) => if t in s.tasks then MoveTask(l, s, t, s.tasks[t]) else s
    case Land(t, seen) =>
      if t in s.tasks && s.tasks[t].InFlight? && s.tasks[t].started <= seen <= s.clock
      then LandTask(s, t, s.tasks[t], seen, up.Answer(seen)) else s
  }

  function Run(l: Limits, up: Upstream, events: seq<Event>): State {
    if events == [] then START
    else Next(l, up, Run(l, up, events[..|events| - 1]), events[|events| - 1])
  }

  // ---- The invariant ----

  /** The task inside the locked section is the holder of the lock, and nobody else is. */
  predicate Exclusive(s: State) {
    && (forall t :: t in s.tasks ==> (s.tasks[t].Holding() <==> s.holder == Some(t)))
    && (s.holder.Some? ==> s.holder.value in s.tasks)
  }

  predicate Flying(s: State) {
    s.holder.Some? && s.holder.value in s.tasks && s.tasks[s.holder.value].InFlight?
  }

  /** Every trip begun is over, except the one of the lock holder. */
  predicate Logged(s: State) {
    && |s.starts| == |s.trips| + (if Flying(s) then 1 else 0)
    && (forall i :: 0 <= i < |s.trips| ==> s.starts[i] == s.trips[i].started)
    && (Flying(s) ==> s.starts[|s.trips|] == s.tasks[s.holder.value].started)
    && (forall i :: 0 <= i < |s.starts| ==> s.starts[i] <= s.clock)
  }

  /** The log explains the cache; an attempt is marked ahead of its trip by the lock holder only. */
  predicate Explained(s: State) {
    && s.cache.entry == After(s.trips).entry
    && s.cache.lastFailure == After(s.trips).lastFailure
    && (s.holder.None? ==> s.cache == After(s.trips))
    && (s.cache.entry.Some? ==> s.cache.entry.value.fetchedAt <= s.clock)
  }

  /** What the lock holder has found out; time passing keeps it true. */
  predicate Knows(l: Limits, s: State, pc: Pc) {
    && (pc.InFlight? ==> s.cache.lastAttempt == Some(pc.started))
    && (pc.Holding() && !pc.Ready? && !pc.InFlight? ==> s.cache == After(s.trips))
    && (pc.Holding() && !pc.Entered? && !pc.InFlight? && !pc.Failed? ==> Held(s.cache, l.ttl, pc.kid, s.clock) == None)
    && (pc.TryFresh? && LastFailed(s.trips) ==>
          || Held(s.cache, l.MaxAge(), pc.kid, s.clock) == None
          || s.trips[|s.trips| - 1].started + l.missInterval <= s.clock)
    && (pc.Ready? ==> MayStart(l, s.trips, pc.kid, s.clock))
    && (pc.InFlight? ==> MayStart(l, s.trips, pc.kid, pc.started))
  }

  predicate HolderKnows(l: Limits, s: State) {
    s.holder.Some? && s.holder.value in s.tasks ==> Knows(l, s, s.tasks[s.holder.value])
  }

  predicate Ordered(s: State) {
    forall i :: 0 <= i < |s.trips| ==> s.trips[i].started <= s.trips[i].ended <= s.clock
  }

  predicate Inv(l: Limits, s: State) {
    Exclusive(s) && Logged(s) && Explained(s) && HolderKnows(l, s) && Ordered(s) && Spaced(l, s.trips)
  }

  /** The cache is written by the lock holder only: what justifies treating the locked section of one
    * lookup as atomic among the others. */
  lemma OnlyTheHolderWrites(l: Limits, up: Upstream, s: State, e: Event)
    requires Exclusive(s)
    ensures Next(l, up, s, e).cache != s.cache ==>
              (e.Move? || e.Land?) && s.holder == Some(e.task)
    ensures Next(l, up, s, e).trips != s.trips || Next(l, up, s, e).starts != s.starts ==>
              (e.Move? || e.Land?) && s.holder == Some(e.task)
  {
  }

  lemma ExclusiveStep(l: Limits, up: Upstream, s: State, e: Event)
    requires Exclusive(s)
    ensures Exclusive(Next(l, up, s, e))
  {
  }

  /** Only the start and the end of a trip touch the lists. */
  lemma LoggedMove(l: Limits, s: State, t: Task, pc: Pc)
    requires Exclusive(s) && Logged(s) && t in s.tasks && s.tasks[t] == pc && !pc.Ready? && !pc.InFlight?
    ensures Logged(MoveTask(l, s, t, pc))
  {
    var n := MoveTask(l, s, t, pc);
    assert n.starts == s.starts && n.trips == s.trips && n.clock == s.clock;
    assert !Flying(n) || (Flying(s) && n.holder == s.holder && n.tasks[n.holder.value] == s.tasks[s.holder.value]);
  }

  lemma LoggedStart(l: Limits, s: State, t: Task, pc: Pc)
    requires Exclusive(s) && Logged(s) && t in s.tasks && s.tasks[t] == pc && pc.Ready?
    ensures Logged(MoveTask(l, s, t, pc))
  {
  }

  lemma LoggedLand(l: Limits, up: Upstream, s: State, e: Event)
    requires Exclusive(s) && Logged(s) && e.Land?
    ensures Logged(Next(l, up, s, e))
  {
  }

  lemma LoggedStep(l: Limits, up: Upstream, s: State, e: Event)
    requires Exclusive(s) && Logged(s)
    ensures Logged(Next(l, up, s, e))
  {
    match e
    case Tick(_) =>
    case Begin(_, _) =>
    case Land(_, _) => LoggedLand(l, up, s, e);
    case Move(t) =>
      if t in s.tasks && s.tasks[t].Ready? {
        LoggedStart(l, s, t, s.tasks[t]);
      } else if t in s.tasks && !s.tasks[t].InFlight? {
        LoggedMove(l, s, t, s.tasks[t]);
      }
  }

  lemma ExplainedLand(l: Limits, up: Upstream, s: State, e: Event)
    requires Exclusive(s) && Explained(s) && HolderKnows(l, s) && e.Land?
    ensures Explained(Next(l, up, s, e))
  {
    var n := Next(l, up, s, e);
    assert n.trips != s.trips ==> n.trips[..|s.trips|] == s.trips;
  }

  /** Moves leave the snapshot alone, and the attempt they mark is the holder's. */
  lemma ExplainedMove(l: Limits, s: State, t: Task, pc: Pc)
    requires Exclusive(s) && Explained(s) && HolderKnows(l, s) && t in s.tasks && s.tasks[t] == pc
    ensures Explained(MoveTask(l, s, t, pc))
  {
    var n := MoveTask(l, s, t, pc);
    assert n.trips == s.trips && n.clock == s.clock && n.cache.(lastAttempt := None) == s.cache.(lastAttempt := None);
    if pc.Holding() { assert Knows(l, s, pc); }
  }

  lemma ExplainedStep(l: Limits, up: Upstream, s: State, e: Event)
    requires Exclusive(s) && Explained(s) && HolderKnows(l, s)
    ensures Explained(Next(l, up, s, e))
  {
    match e
    case Tick(_) =>
    case Begin(_, _) =>
    case Land(_, _) => ExplainedLand(l, up, s, e);
    case Move(t) => if t in s.tasks { ExplainedMove(l, s, t, s.tasks[t]); }
  }

  lemma HolderKnowsTick(l: Limits, up: Upstream, s: State, d: nat)
    requires HolderKnows(l, s)
    ensures HolderKnows(l, Next(l, up, s, Tick(d)))
  {
  }

  /** A lookup outside the lock tells the holder nothing. */
  lemma HolderKnowsOutside(l: Limits, s: State, t: Task, pc: Pc)
    requires Exclusive(s) && HolderKnows(l, s) && t in s.tasks && s.tasks[t] == pc && !pc.Holding()
    requires !pc.Queued? || s.holder.Some?
    ensures HolderKnows(l, MoveTask(l, s, t, pc))
  {
  }

  /** What the holder learns by its next step. */
  lemma HolderLearns(l: Limits, s: State, t: Task, pc: Pc)
    requires Exclusive(s) && Explained(s) && HolderKnows(l, s) && Ordered(s)
    requires t in s.tasks && s.tasks[t] == pc && pc.Holding()
    ensures HolderKnows(l, MoveTask(l, s, t, pc))
  {
    assert Knows(l, s, pc);
    var n := MoveTask(l, s, t, pc);
    assert n.trips == s.trips && n.clock == s.clock;
    if n.holder.Some? {
      var next := n.tasks[t];
      assert pc.Ready? ==> Knows(l, n, next);
      assert pc.Missed? ==> Knows(l, n, next);
      assert pc.TryFresh? ==> Knows(l, n, next);
      assert Knows(l, n, next);
    }
  }

  lemma HolderKnowsStep(l: Limits, up: Upstream, s: State, e: Event)
    requires Exclusive(s) && Explained(s) && HolderKnows(l, s) && Ordered(s)
    ensures HolderKnows(l, Next(l, up, s, e))
  {
    match e
    case Tick(d) => HolderKnowsTick(l, up, s, d);
    case Move(t) =>
      if t in s.tasks && s.tasks[t].Holding() {
        HolderLearns(l, s, t, s.tasks[t]);
      } else if t in s.tasks && !(s.tasks[t].Queued? && s.holder.None?) {
        HolderKnowsOutside(l, s, t, s.tasks[t]);
      }
    case Begin(t, kid) => HolderKnowsBegin(l, up, s, t, kid);
    case Land(t, seen) => HolderKnowsLand(l, up, s, t, seen);
  }

  lemma HolderKnowsBegin(l: Limits, up: Upstream, s: State, t: Task, kid: string)
    requires Exclusive(s) && HolderKnows(l, s)
    ensures HolderKnows(l, Next(l, up, s, Begin(t, kid)))
  {
  }

  lemma HolderKnowsLand(l: Limits, up: Upstream, s: State, t: Task, seen: nat)
    requires Exclusive(s) && Explained(s) && HolderKnows(l, s)
    ensures HolderKnows(l, Next(l, up, s, Land(t, seen)))
  {
    var n := Next(l, up, s, Land(t, seen));
    assert n.trips != s.trips ==> n.trips[..|s.trips|] == s.trips;
  }

  lemma OrderedStep(l: Limits, up: Upstream, s: State, e: Event)
    requires Ordered(s)
    ensures Ordered(Next(l, up, s, e))
  {
  }

  lemma SpacedStep(l: Limits, up: Upstream, s: State, e: Event)
    requires Exclusive(s) && HolderKnows(l, s) && Spaced(l, s.trips)
    ensures Spaced(l, Next(l, up, s, e).trips)
  {
    var n := Next(l, up, s, e);
    if n.trips != s.trips {
      SpacedMore(l, s.trips, n.trips[|s.trips|]);
    }
  }

  /** The invariant of every run. */
  lemma {:induction false} RunInv(l: Limits, up: Upstream, events: seq<Event>)
    ensures Inv(l, Run(l, up, events))
  {
    if events != [] {
      var before, e := events[..|events| - 1], events[|events| - 1];
      RunInv(l, up, before);
      ExclusiveStep(l, up, Run(l, up, before), e);
      LoggedStep(l, up, Run(l, up, before), e);
      ExplainedStep(l, up, Run(l, up, before), e);
      HolderKnowsStep(l, up, Run(l, up, before), e);
      OrderedStep(l, up, Run(l, up, before), e);
      SpacedStep(l, up, Run(l, up, before), e);
    }
  }

  /** Single flight and the trip bound, with any number of lookups interleaved: at most one trip is in
    * flight, and the trip in flight obeys the bound like those before it. */
  lemma SingleFlight(l: Limits, up: Upstream, events: seq<Event>, t: Task, u: Task)
    ensures var s := Run(l, up, events);
            && Spaced(l, s.trips)
            && (t in s.tasks && s.tasks[t].InFlight? && u in s.tasks && s.tasks[u].InFlight? ==> t == u)
            && (t in s.tasks && s.tasks[t].InFlight? ==>
                  |s.starts| == |s.trips| + 1 && MayStart(l, s.trips, s.tasks[t].kid, s.tasks[t].started))
  {
    RunInv(l, up, events);
  }

  // ---- What answers rest on ----

  /** What the lock holder has read on its way. */
  predicate HasRead(l: Limits, s: State, pc: Pc) {
    && (pc.Missed? ==> Held(s.cache, l.ttl, pc.kid, s.clock) == None)
    && (pc.Barred? || pc.TryStale? || pc.TryFresh? ==>
          && pc.asked <= s.clock && Held(s.cache, l.ttl, pc.kid, pc.asked) == None
          && !Elapsed(s.cache.lastAttempt, l.missInterval, pc.asked))
    && (pc.TryStale? ==> LastFailed(s.trips))
    && (pc.Failed? ==> s.trips != [] && s.trips[|s.trips| - 1].kid == pc.kid && s.trips[|s.trips| - 1].outcome == Err(pc.error)
                       && pc.error != NotFound)
    && (pc.InFlight? ==> LogEnd(s.trips) <= pc.started)
  }

  predicate HolderHasRead(l: Limits, s: State) {
    s.holder.Some? && s.holder.value in s.tasks ==> HasRead(l, s, s.tasks[s.holder.value])
  }

  /** An answer is justified by the log as it was when it was given, by reads during the lookup. */
  ghost predicate Founded(l: Limits, s: State, t: Task, pc: Pc) {
    pc.Answered? ==>
      && t in s.since && s.since[t] <= pc.asked <= pc.at <= s.clock
      && pc.logged <= |s.trips| && Justified(l, s.trips[..pc.logged], pc.kid, pc.result, pc.own, pc.asked, pc.at)
  }

  ghost predicate AllFounded(l: Limits, s: State) {
    forall t :: t in s.tasks ==> Founded(l, s, t, s.tasks[t])
  }

  /** A lookup asks after it began. */
  predicate Timely(s: State) {
    forall t :: t in s.tasks ==>
      t in s.since && s.since[t] <= s.clock
      && (s.tasks[t].Barred? || s.tasks[t].TryStale? || s.tasks[t].TryFresh? ==> s.since[t] <= s.tasks[t].asked)
  }

  lemma TimelyMove(l: Limits, s: State, t: Task, pc: Pc)
    requires Timely(s) && t in s.tasks && s.tasks[t] == pc
    ensures Timely(MoveTask(l, s, t, pc))
  {
  }

  lemma TimelyStep(l: Limits, up: Upstream, s: State, e: Event)
    requires Timely(s)
    ensures Timely(Next(l, up, s, e))
  {
    if e.Move? && e.task in s.tasks { TimelyMove(l, s, e.task, s.tasks[e.task]); }
  }

  lemma HasReadQuiet(l: Limits, up: Upstream, s: State, e: Event)
    requires Exclusive(s) && HolderHasRead(l, s) && (e.Tick? || e.Begin?)
    ensures HolderHasRead(l, Next(l, up, s, e))
  {
  }

  lemma HasReadOutside(l: Limits, s: State, t: Task, pc: Pc)
    requires Exclusive(s) && HolderHasRead(l, s) && t in s.tasks && s.tasks[t] == pc && !pc.Holding()
    ensures HolderHasRead(l, MoveTask(l, s, t, pc))
  {
  }

  /** The reads before the decision to fetch. */
  lemma HasReadLooking(l: Limits, s: State, t: Task, pc: Pc)
    requires Exclusive(s) && HolderKnows(l, s) && HolderHasRead(l, s)
    requires t in s.tasks && s.tasks[t] == pc && (pc.Entered? || pc.Missed?)
    ensures HolderHasRead(l, MoveTask(l, s, t, pc))
  {
    assert Knows(l, s, pc) && HasRead(l, s, pc);
  }

  lemma HasReadThrottled(l: Limits, s: State, t: Task, pc: Pc)
    requires Exclusive(s) && Explained(s) && HolderHasRead(l, s)
    requires t in s.tasks && s.tasks[t] == pc && (pc.Barred? || pc.TryStale? || pc.TryFresh?)
    ensures HolderHasRead(l, MoveTask(l, s, t, pc))
  {
    assert HasRead(l, s, pc);
  }

  /** The start of a trip, and what follows a failed one. */
  lemma HasReadTrip(l: Limits, s: State, t: Task, pc: Pc)
    requires Exclusive(s) && HolderHasRead(l, s) && Ordered(s)
    requires t in s.tasks && s.tasks[t] == pc && (pc.Ready? || pc.InFlight? || pc.Failed?)
    ensures HolderHasRead(l, MoveTask(l, s, t, pc))
  {
  }

  lemma HasReadInside(l: Limits, s: State, t: Task, pc: Pc)
    requires Exclusive(s) && Explained(s) && HolderKnows(l, s) && HolderHasRead(l, s) && Ordered(s)
    requires t in s.tasks && s.tasks[t] == pc && pc.Holding()
    ensures HolderHasRead(l, MoveTask(l, s, t, pc))
  {
    if pc.Entered? || pc.Missed? {
      HasReadLooking(l, s, t, pc);
    } else if pc.Barred? || pc.TryStale? || pc.TryFresh? {
      HasReadThrottled(l, s, t, pc);
    } else {
      HasReadTrip(l, s, t, pc);
    }
  }

  lemma HasReadLand(l: Limits, up: Upstream, s: State, e: Event)
    requires Exclusive(s) && HolderHasRead(l, s) && e.Land?
    ensures HolderHasRead(l, Next(l, up, s, e))
  {
  }

  lemma HasReadStep(l: Limits, up: Upstream, s: State, e: Event)
    requires Inv(l, s) && HolderHasRead(l, s)
    ensures HolderHasRead(l, Next(l, up, s, e))
  {
    match e
    case Tick(_) => HasReadQuiet(l, up, s, e);
    case Begin(_, _) => HasReadQuiet(l, up, s, e);
    case Land(_, _) => HasReadLand(l, up, s, e);
    case Move(t) =>
      if t in s.tasks && s.tasks[t].Holding() {
        HasReadInside(l, s, t, s.tasks[t]);
      } else if t in s.tasks {
        HasReadOutside(l, s, t, s.tasks[t]);
      }
  }

  /** The log is a faithful history of the key service. */
  lemma FaithfulStep(l: Limits, up: Upstream, s: State, e: Event)
    requires Exclusive(s) && HolderHasRead(l, s) && Faithful(up, s.trips)
    ensures Faithful(up, Next(l, up, s, e).trips)
  {
    var n := Next(l, up, s, e);
    if n.trips != s.trips {
      FaithfulMore(up, s.trips, n.trips[|s.trips|]);
    }
  }

  /** An answer given from memory, by a lookup with or without the lock. */
  lemma FoundedMove(l: Limits, s: State, t: Task, pc: Pc)
    requires Exclusive(s) && Explained(s) && HolderKnows(l, s) && HolderHasRead(l, s) && Ordered(s) && Timely(s)
    requires t in s.tasks && s.tasks[t] == pc && !pc.Answered? && MoveTask(l, s, t, pc).tasks[t].Answered?
    ensures Founded(l, s, t, MoveTask(l, s, t, pc).tasks[t])
  {
    var c, kid := After(s.trips), pc.kid;
    assert s.trips[..|s.trips|] == s.trips;
    assert c.entry == s.cache.entry;
    if pc.Holding() { assert Knows(l, s, pc) && HasRead(l, s, pc); }
    if pc.Arrived? || pc.Entered? {
      JustifyHeld(l, s.trips, kid, l.ttl, false, s.clock, s.clock);
    } else if pc.TryStale? {
      JustifyHeld(l, s.trips, kid, l.MaxAge(), false, pc.asked, s.clock);
    } else if pc.TryFresh? {
      JustifyThrottled(l, s.trips, kid, pc.asked);
    } else {
      JustifySettled(l, s.trips, kid, s.clock, s.clock);
    }
  }

  /** An answer given by a trip of one's own. */
  lemma FoundedLand(l: Limits, up: Upstream, s: State, t: Task, seen: nat)
    requires t in s.tasks && s.tasks[t].InFlight? && s.tasks[t].started <= seen <= s.clock && up.Answer(seen).Ok?
    requires t in s.since && s.since[t] <= s.clock
    ensures Founded(l, Next(l, up, s, Land(t, seen)), t, Next(l, up, s, Land(t, seen)).tasks[t])
  {
    var n := Next(l, up, s, Land(t, seen));
    assert n.trips[..|n.trips|] == n.trips;
    JustifySettled(l, n.trips, s.tasks[t].kid, s.clock, s.clock);
  }

  lemma FoundedKept(l: Limits, up: Upstream, s: State, e: Event, t: Task, pc: Pc)
    requires Founded(l, s, t, pc) && !(e.Begin? && e.task == t)
    ensures Founded(l, Next(l, up, s, e), t, pc)
  {
    if pc.Answered? {
      assert Next(l, up, s, e).trips[..pc.logged] == s.trips[..pc.logged];
    }
  }

  /** Which event gives an answer. */
  lemma WhoAnswers(l: Limits, up: Upstream, s: State, e: Event, t: Task)
    requires t in Next(l, up, s, e).tasks && Next(l, up, s, e).tasks[t].Answered?
    requires !(t in s.tasks && s.tasks[t] == Next(l, up, s, e).tasks[t])
    ensures t in s.tasks && !s.tasks[t].Answered?
    ensures (e == Move(t) && Next(l, up, s, e).tasks[t] == MoveTask(l, s, t, s.tasks[t]).tasks[t])
            || (e.Land? && e == Land(t, e.seen) && up.Answer(e.seen).Ok? && s.tasks[t].InFlight? && s.tasks[t].started <= e.seen <= s.clock)
  {
  }

  lemma FoundedAt(l: Limits, up: Upstream, s: State, e: Event, t: Task)
    requires Inv(l, s) && HolderHasRead(l, s) && Timely(s) && AllFounded(l, s) && t in Next(l, up, s, e).tasks
    ensures Founded(l, Next(l, up, s, e), t, Next(l, up, s, e).tasks[t])
  {
    var pc := Next(l, up, s, e).tasks[t];
    if t in s.tasks && s.tasks[t] == pc {
      if pc.Answered? { FoundedKept(l, up, s, e, t, pc); }
    } else if pc.Answered? {
      WhoAnswers(l, up, s, e, t);
      if e.Move? {
        FoundedMove(l, s, t, s.tasks[t]);
        FoundedKept(l, up, s, e, t, pc);
      } else {
        FoundedLand(l, up, s, t, e.seen);
      }
    }
  }

  lemma FoundedStep(l: Limits, up: Upstream, s: State, e: Event)
    requires Inv(l, s) && HolderHasRead(l, s) && Timely(s) && AllFounded(l, s)
    ensures AllFounded(l, Next(l, up, s, e))
  {
    forall t | t in Next(l, up, s, e).tasks ensures Founded(l, Next(l, up, s, e), t, Next(l, up, s, e).tasks[t]) {
      FoundedAt(l, up, s, e, t);
    }
  }

  /** Every answer of any interleaving is justified by a faithful log. */
  lemma {:induction false} AnswersFounded(l: Limits, up: Upstream, events: seq<Event>)
    ensures var s := Run(l, up, events); HolderHasRead(l, s) && Timely(s) && AllFounded(l, s) && Faithful(up, s.trips)
  {
    if events != [] {
      var before, e := events[..|events| - 1], events[|events| - 1];
      AnswersFounded(l, up, before);
      RunInv(l, up, before);
      HasReadStep(l, up, Run(l, up, before), e);
      TimelyStep(l, up, Run(l, up, before), e);
      FoundedStep(l, up, Run(l, up, before), e);
      FaithfulStep(l, up, Run(l, up, before), e);
    }
  }

  /** The cache refines direct lookup for any number of lookups interleaved operation by operation: while the
    * key service holds one key set, every answer about a key is the answer of the key service, and any other
    * answer is the error of the lookup's own failed trip. */
  lemma InterleavedLookupsAreDirect(l: Limits, up: Upstream, events: seq<Event>, t: Task)
    requires forall a, b :: up.keys(a) == up.keys(b)
    requires t in Run(l, up, events).tasks && Run(l, up, events).tasks[t].Answered?
    ensures var pc := Run(l, up, events).tasks[t];
      && (pc.result.Ok? || pc.result == Err(NotFound) ==> pc.result == Lookup(up.keys(0), pc.kid))
      && (pc.result == Err(BadConnection) || pc.result == Err(BadResponse) ==> pc.own)
      && ((forall m :: up.fault(m) == None) ==> pc.result == Lookup(up.keys(0), pc.kid))
  {
    AnswersFounded(l, up, events);
    var s := Run(l, up, events);
    var pc := s.tasks[t];
    assert Founded(l, s, t, pc);
    FaithfulPrefix(up, s.trips, pc.logged);
    RefinesDirectLookup(l, up, s.trips[..pc.logged], pc.kid, pc.result, pc.own, pc.asked, pc.at, 0);
  }

  /** Staleness stays bounded under any interleaving, and the grace counts only after a failed trip. */
  lemma InterleavedStaleness(l: Limits, up: Upstream, events: seq<Event>, t: Task, gone: nat, latency: nat)
    requires t in Run(l, up, events).tasks && Run(l, up, events).tasks[t].Answered? && Run(l, up, events).tasks[t].result.Ok?
    requires var pc := Run(l, up, events).tasks[t];
      forall m :: gone <= m ==> Find(up.keys(m), pc.kid) != Some(pc.result.value)
    requires var trips := Run(l, up, events).trips;
      forall i :: 0 <= i < |trips| ==> trips[i].ended <= trips[i].started + latency
    ensures Run(l, up, events).tasks[t].at < gone + latency + l.MaxAge()
    ensures var s := Run(l, up, events);
      s.tasks[t].logged <= |s.trips|
      && (!LastFailed(s.trips[..s.tasks[t].logged]) ==> s.tasks[t].at < gone + latency + l.ttl)
  {
    AnswersFounded(l, up, events);
    var s := Run(l, up, events);
    var pc := s.tasks[t];
    assert Founded(l, s, t, pc);
    FaithfulPrefix(up, s.trips, pc.logged);
    RemovedKeyFades(l, up, s.trips[..pc.logged], pc.kid, pc.result.value, pc.own, pc.asked, pc.at, gone, latency);
  }

  /** Every lookup that is answered without a fresh key made its own trip, unless the throttle interval was still running
    * after it began; and then it serves a key only if the last trip failed. */
  lemma InterleavedMisses(l: Limits, up: Upstream, events: seq<Event>, t: Task)
    requires t in Run(l, up, events).tasks && Run(l, up, events).tasks[t].Answered?
    ensures var s := Run(l, up, events); var pc := s.tasks[t];
      && t in s.since && pc.logged <= |s.trips|
      && var trips := s.trips[..pc.logged];
         Held(After(trips), l.ttl, pc.kid, pc.at) == None ==>
           pc.own || (Throttled(l, trips, s.since[t]) && (pc.result.Ok? ==> LastFailed(trips)))
  {
    AnswersFounded(l, up, events);
    var s := Run(l, up, events);
    var pc := s.tasks[t];
    assert Founded(l, s, t, pc);
    if Held(After(s.trips[..pc.logged]), l.ttl, pc.kid, pc.at) == None {
      MissMakesTrip(l, s.trips[..pc.logged], pc.kid, pc.result, pc.own, pc.asked, pc.at);
    }
  }

  predicate AllOwn(s: State) {
    forall t :: t in s.tasks && s.tasks[t].Answered? ==> s.tasks[t].own
  }

  /** A cache that is off answers nothing from memory. */
  lemma OwnStep(l: Limits, up: Upstream, s: State, e: Event)
    requires l.ttl == 0 && Explained(s) && AllOwn(s)
    ensures AllOwn(Next(l, up, s, e))
  {
  }

  lemma {:induction false} AllOwnRun(l: Limits, up: Upstream, events: seq<Event>)
    requires l.ttl == 0
    ensures AllOwn(Run(l, up, events))
  {
    if events != [] {
      var before, e := events[..|events| - 1], events[|events| - 1];
      AllOwnRun(l, up, before);
      RunInv(l, up, before);
      OwnStep(l, up, Run(l, up, before), e);
    }
  }

  /** With a TTL of zero the cache is off: under any interleaving every lookup that was answered made the last trip of
    * its log itself, for its own key. */
  lemma OffMeansOwnTrip(l: Limits, up: Upstream, events: seq<Event>, t: Task)
    requires l.ttl == 0 && t in Run(l, up, events).tasks && Run(l, up, events).tasks[t].Answered?
    ensures var s := Run(l, up, events); var pc := s.tasks[t];
      pc.own && 0 < pc.logged <= |s.trips| && s.trips[pc.logged - 1].kid == pc.kid
  {
    AllOwnRun(l, up, events);
    AnswersFounded(l, up, events);
    OwnIsLast(l, Run(l, up, events), t);
  }

  lemma OwnIsLast(l: Limits, s: State, t: Task)
    requires AllFounded(l, s) && t in s.tasks && s.tasks[t].Answered? && s.tasks[t].own
    ensures 0 < s.tasks[t].logged <= |s.trips| && s.trips[s.tasks[t].logged - 1].kid == s.tasks[t].kid
  {
    assert Founded(l, s, t, s.tasks[t]);
  }

  lemma FaithfulPrefix(up: Upstream, trips: seq<Trip>, n: nat)
    requires Faithful(up, trips) && n <= |trips|
    ensures Faithful(up, trips[..n])
  {
    forall i | 0 <= i < n ensures LogEnd(trips[..n][..i]) <= trips[..n][i].started && trips[..n][i].Honest(up) {
      assert trips[..n][..i] == trips[..i];
    }
  }

  /** A fresh hit is answered at once, whoever holds the lock. */
  lemma FreshHitAnswers(l: Limits, up: Upstream, s: State, t: Task)
    requires t in s.tasks && s.tasks[t].Arrived? && Held(s.cache, l.ttl, s.tasks[t].kid, s.clock).Some?
    ensures var n := Next(l, up, s, Move(t));
      && n.tasks[t].Answered? && n.tasks[t].result == Ok(Held(s.cache, l.ttl, s.tasks[t].kid, s.clock).value)
      && n.trips == s.trips && n.starts == s.starts && n.cache == s.cache
  {
  }

  /** No deadlock: as long as a lookup is unanswered, some lookup can take a step. */
  lemma NoDeadlock(l: Limits, up: Upstream, events: seq<Event>, t: Task)
    requires t in Run(l, up, events).tasks && !Run(l, up, events).tasks[t].Answered?
    ensures exists e: Event :: (e.Move? || e.Land?) && Next(l, up, Run(l, up, events), e).tasks != Run(l, up, events).tasks
  {
    RunInv(l, up, events);
    AnswersFounded(l, up, events);
    var s := Run(l, up, events);
    var u := if s.holder.Some? then s.holder.value else t;
    CanStep(l, up, s, u);
  }

  /** The holder of the lock can go on, and so can anyone while it is free. */
  lemma CanStep(l: Limits, up: Upstream, s: State, t: Task)
    requires Exclusive(s) && t in s.tasks && !s.tasks[t].Answered? && (s.holder == Some(t) || s.holder == None)
    requires s.tasks[t].InFlight? ==> s.tasks[t].started <= s.clock
    ensures exists e: Event :: (e.Move? || e.Land?) && Next(l, up, s, e).tasks != s.tasks
  {
    var e := if s.tasks[t].InFlight? then Land(t, s.clock) else Move(t);
    assert Next(l, up, s, e).tasks[t] != s.tasks[t];
  }

  // ---- A burst on a cold cache ----

  predicate Burst(kid: string, events: seq<Event>) {
    forall i :: 0 <= i < |events| && events[i].Begin? ==> events[i].kid == kid
  }

  /** The first trip is over and brought the key. */
  predicate Warm(s: State, kid: string) {
    s.trips != [] && s.trips[0].outcome.Ok? && Find(s.trips[0].outcome.value, kid).Some?
  }

  predicate Asking(kid: string, s: State) {
    forall t :: t in s.tasks ==> s.tasks[t].kid == kid
  }

  /** Nobody is answered before the first trip is over. */
  predicate Waiting(s: State) {
    s.trips == [] ==> s.cache.entry == None && forall t :: t in s.tasks ==> !s.tasks[t].Answered? && !s.tasks[t].Failed?
  }

  /** Before the first snapshot runs out there is no second trip, and nobody gets past the second look at
    * the cache; every answer is the key of that snapshot. */
  predicate Served(l: Limits, kid: string, s: State) {
    Warm(s, kid) && s.clock < s.trips[0].ended + l.ttl ==>
      && |s.starts| == 1
      && (s.holder.Some? && s.holder.value in s.tasks ==> s.tasks[s.holder.value].Entered?)
      && forall t :: t in s.tasks && s.tasks[t].Answered? ==>
           s.tasks[t].result == Lookup(s.trips[0].outcome.value, kid)
  }

  /** Any later trip starts after the first snapshot ran out. */
  predicate Later(l: Limits, kid: string, s: State) {
    Warm(s, kid) ==> forall i :: 1 <= i < |s.starts| ==> s.trips[0].ended + l.ttl <= s.starts[i]
  }

  predicate BurstInv(l: Limits, kid: string, s: State) {
    Asking(kid, s) && Waiting(s) && Served(l, kid, s) && Later(l, kid, s)
  }

  lemma AskingMove(l: Limits, s: State, t: Task, pc: Pc)
    requires t in s.tasks && s.tasks[t] == pc
    ensures t in MoveTask(l, s, t, pc).tasks && MoveTask(l, s, t, pc).tasks[t].kid == pc.kid
    ensures forall u :: u != t && u in MoveTask(l, s, t, pc).tasks ==> u in s.tasks && MoveTask(l, s, t, pc).tasks[u] == s.tasks[u]
  {
  }

  lemma AskingStep(l: Limits, up: Upstream, kid: string, s: State, e: Event)
    requires Asking(kid, s) && (e.Begin? ==> e.kid == kid)
    ensures Asking(kid, Next(l, up, s, e))
  {
    if e.Move? && e.task in s.tasks { AskingMove(l, s, e.task, s.tasks[e.task]); }
  }

  lemma WaitingStep(l: Limits, up: Upstream, s: State, e: Event)
    requires Exclusive(s) && Explained(s) && HolderKnows(l, s) && Waiting(s)
    ensures Waiting(Next(l, up, s, e))
  {
    assert After([]) == COLD;
  }

  /** While the first snapshot is fresh it is what the cache holds. */
  lemma WarmEntry(l: Limits, kid: string, s: State)
    requires Logged(s) && Explained(s) && Served(l, kid, s)
    requires Warm(s, kid) && s.clock < s.trips[0].ended + l.ttl
    ensures s.cache.entry == Some(Snapshot(s.trips[0].outcome.value, s.trips[0].ended))
    ensures Held(s.cache, l.ttl, kid, s.clock) == Find(s.trips[0].outcome.value, kid)
  {
    assert |s.trips| == 1;
    assert s.trips[..0] == [];
  }

  /** While the first snapshot is fresh a lookup is answered from it or waits for the lock. */
  lemma WarmMove(l: Limits, kid: string, s: State, t: Task, pc: Pc)
    requires Exclusive(s) && t in s.tasks && s.tasks[t] == pc && pc.kid == kid
    requires Held(s.cache, l.ttl, kid, s.clock).Some? && (pc.Holding() ==> pc.Entered?)
    ensures var n := MoveTask(l, s, t, pc);
      && n.starts == s.starts
      && (n.tasks[t].Holding() ==> n.tasks[t].Entered?)
      && (n.tasks[t].Answered? && !pc.Answered? ==> n.tasks[t].result == Ok(Held(s.cache, l.ttl, kid, s.clock).value))
  {
  }

  lemma MoveOne(l: Limits, s: State, t: Task, pc: Pc)
    requires Exclusive(s) && t in s.tasks && s.tasks[t] == pc
    ensures var n := MoveTask(l, s, t, pc);
      && n.trips == s.trips && n.clock == s.clock && t in n.tasks && (forall u :: u != t ==> (u in n.tasks <==> u in s.tasks))
      && (forall u :: u in s.tasks && u != t ==> n.tasks[u] == s.tasks[u])
      && (n.holder == s.holder || n.holder == None || n.holder == Some(t))
      && (n.holder == Some(t) ==> n.tasks[t].Holding())
  {
  }

  lemma ServedMove(l: Limits, up: Upstream, kid: string, s: State, t: Task)
    requires Exclusive(s) && Logged(s) && Explained(s) && Asking(kid, s) && Served(l, kid, s)
    ensures Served(l, kid, Next(l, up, s, Move(t)))
  {
    if t in s.tasks {
      MoveOne(l, s, t, s.tasks[t]);
      if Warm(s, kid) && s.clock < s.trips[0].ended + l.ttl {
        WarmEntry(l, kid, s);
        WarmMove(l, kid, s, t, s.tasks[t]);
      }
    }
  }

  lemma ServedLand(l: Limits, up: Upstream, kid: string, s: State, e: Event)
    requires Exclusive(s) && Logged(s) && Asking(kid, s) && Waiting(s) && Served(l, kid, s) && e.Land?
    ensures Served(l, kid, Next(l, up, s, e))
  {
  }

  lemma LaterStep(l: Limits, up: Upstream, kid: string, s: State, e: Event)
    requires Exclusive(s) && Logged(s) && Served(l, kid, s) && Later(l, kid, s)
    ensures Later(l, kid, Next(l, up, s, e))
  {
  }

  lemma ServedStep(l: Limits, up: Upstream, kid: string, s: State, e: Event)
    requires Exclusive(s) && Logged(s) && Explained(s) && Asking(kid, s) && Waiting(s) && Served(l, kid, s)
    ensures Served(l, kid, Next(l, up, s, e))
  {
    match e
    case Tick(d) =>
    case Begin(t, _) =>
    case Move(t) => ServedMove(l, up, kid, s, t);
    case Land(_, _) => ServedLand(l, up, kid, s, e);
  }

  lemma BurstStep(l: Limits, up: Upstream, kid: string, s: State, e: Event)
    requires Inv(l, s) && BurstInv(l, kid, s)
    requires e.Begin? ==> e.kid == kid
    ensures BurstInv(l, kid, Next(l, up, s, e))
  {
    AskingStep(l, up, kid, s, e);
    WaitingStep(l, up, s, e);
    LaterStep(l, up, kid, s, e);
    ServedStep(l, up, kid, s, e);
  }

  lemma {:induction false} BurstRun(l: Limits, up: Upstream, kid: string, events: seq<Event>)
    requires Burst(kid, events)
    ensures BurstInv(l, kid, Run(l, up, events))
  {
    if events != [] {
      var before := events[..|events| - 1];
      BurstRun(l, up, kid, before);
      RunInv(l, up, before);
      BurstStep(l, up, kid, Run(l, up, before), events[|events| - 1]);
    }
  }

  /** In a burst of lookups of one `kid` on a cold cache whose first trip brings it, exactly one trip is
    * started before the TTL runs out, and every lookup answered by then got that key. */
  lemma OneTripPerBurst(l: Limits, up: Upstream, kid: string, events: seq<Event>)
    requires Burst(kid, events) && Warm(Run(l, up, events), kid)
    ensures var s := Run(l, up, events);
            var out := s.trips[0].ended + l.ttl;
            && |s.starts| >= 1 && s.starts[0] == s.trips[0].started
            && (forall i :: 0 <= i < |s.starts| && s.starts[i] < out ==> i == 0)
            && (s.clock < out ==>
                  |s.starts| == 1
                  && forall t :: t in s.tasks && s.tasks[t].Answered? ==>
                       s.tasks[t].result == Lookup(s.trips[0].outcome.value, kid))
  {
    RunInv(l, up, events);
    BurstRun(l, up, kid, events);
  }
}
