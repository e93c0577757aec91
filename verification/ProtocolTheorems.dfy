/** What holds over every run of the token service. */
module ProtocolTheorems {
  import opened Common
  import opened Redis
  import opened Claims
  import opened Protocol
  import opened ProtocolInv
  import opened ProtocolFamily
  import opened ProtocolRecords
  import opened ProtocolCover

  /** The state of a run after its first `n` events. */
  ghost function StateAt(cfg: Config, es: seq<Event>, n: nat): Sys
    requires n <= |es|
  {
    Run(cfg, es[..n])
  }

  /** Each event of a legal run is enabled where it happens. */
  lemma Advance(cfg: Config, es: seq<Event>, n: nat)
    requires Legal(cfg, es) && n < |es|
    ensures Enabled(StateAt(cfg, es, n), es[n])
    ensures StateAt(cfg, es, n + 1) == Step(cfg, StateAt(cfg, es, n), es[n])
  {
    LegalPrefix(cfg, es, n + 1);
    assert es[..n + 1][..n] == es[..n];
  }

  lemma InvAt(cfg: Config, es: seq<Event>, n: nat)
    requires Legal(cfg, es) && n <= |es|
    ensures Inv(cfg, StateAt(cfg, es, n))
  {
    LegalPrefix(cfg, es, n);
    RunInv(cfg, es[..n]);
  }

  lemma Stages(cfg: Config, es: seq<Event>, n: nat)
    requires Legal(cfg, es) && n <= |es|
    ensures Inv(cfg, StateAt(cfg, es, n))
    ensures n < |es| ==> Enabled(StateAt(cfg, es, n), es[n]) && StateAt(cfg, es, n + 1) == Step(cfg, StateAt(cfg, es, n), es[n])
  {
    InvAt(cfg, es, n);
    if n < |es| { Advance(cfg, es, n); }
  }

  lemma LegalPrefix(cfg: Config, es: seq<Event>, n: nat)
    requires Legal(cfg, es) && n <= |es|
    ensures Legal(cfg, es[..n])
    decreases |es|
  {
    if n < |es| {
      LegalPrefix(cfg, es[..|es| - 1], n);
      assert es[..|es| - 1][..n] == es[..n];
    } else {
      assert es[..n] == es;
    }
  }

  /** How two states of one run relate: the later one knows more, and index scores never change. */
  ghost predicate Later(s: Sys, t: Sys) {
    Grows(s.hist, t.hist) && s.now <= t.now
    && forall x :: x in s.hist.regs ==> t.hist.regs[x] == s.hist.regs[x]
  }

  lemma LaterStep(cfg: Config, s: Sys, e: Event)
    requires Inv(cfg, s) && Enabled(s, e)
    ensures Later(s, Step(cfg, s, e))
  {
    KnownStep(cfg, s, e);
    forall g, m | (g, m) in s.hist.regs ensures Step(cfg, s, e).hist.regs[(g, m)] == s.hist.regs[(g, m)] {
      ScoreKept(cfg, s, e, g, m);
    }
  }

  lemma LaterTrans(s: Sys, t: Sys, u: Sys)
    requires Later(s, t) && Later(t, u)
    ensures Later(s, u)
  {
  }

  lemma HistoryStep(cfg: Config, es: seq<Event>, n: nat)
    requires Legal(cfg, es) && n < |es|
    ensures Later(StateAt(cfg, es, n), StateAt(cfg, es, n + 1))
  {
    InvAt(cfg, es, n);
    Advance(cfg, es, n);
    LaterStep(cfg, StateAt(cfg, es, n), es[n]);
  }

  lemma {:induction false} History(cfg: Config, es: seq<Event>, i: nat, n: nat)
    requires Legal(cfg, es) && i <= n <= |es|
    ensures Later(StateAt(cfg, es, i), StateAt(cfg, es, n))
    decreases n
  {
    if i < n {
      History(cfg, es, i, n - 1);
      HistoryStep(cfg, es, n - 1);
      LaterTrans(StateAt(cfg, es, i), StateAt(cfg, es, n - 1), StateAt(cfg, es, n));
    }
  }

  lemma ScoreKept(cfg: Config, s: Sys, e: Event, g: GroupKey, m: Key)
    requires Known(s) && RecordsInv(cfg, s) && Enabled(s, e) && (g, m) in s.hist.regs
    ensures (g, m) in Step(cfg, s, e).hist.regs && Step(cfg, s, e).hist.regs[(g, m)] == s.hist.regs[(g, m)]
  {
    var t := Step(cfg, s, e);
    KnownStep(cfg, s, e);
    assert KnownMember(s.hist, g, m, s.hist.regs[(g, m)]) && KnownMember(t.hist, g, m, t.hist.regs[(g, m)]);
    if m.RefreshKey? {
      RefreshEntry(cfg, s, e, g, m.id);
      if e.Exec? { assert StampPc(cfg, s, s.reqs[e.r]); }
    }
  }

  /** From one event to the next a known record stays as it is or disappears. */
  lemma GoneStep(cfg: Config, es: seq<Event>, i: nat, n: nat, id: Id)
    requires Legal(cfg, es) && i <= n < |es| && id in StateAt(cfg, es, i).hist.ids
    ensures HGetAll(StateAt(cfg, es, n + 1).db, id) == None
            || HGetAll(StateAt(cfg, es, n + 1).db, id) == HGetAll(StateAt(cfg, es, n).db, id)
  {
    Advance(cfg, es, n);
    InvAt(cfg, es, n);
    History(cfg, es, i, n);
    RecordsOnlyVanish(cfg, StateAt(cfg, es, n), es[n], id);
  }

  /** A refresh record that is gone stays gone, and one that is there never changes. */
  lemma {:induction false} GoneStays(cfg: Config, es: seq<Event>, i: nat, n: nat, id: Id)
    requires Legal(cfg, es) && i <= n <= |es| && id in StateAt(cfg, es, i).hist.ids
    ensures HGetAll(StateAt(cfg, es, n).db, id) == None
            || HGetAll(StateAt(cfg, es, n).db, id) == HGetAll(StateAt(cfg, es, i).db, id)
    decreases n
  {
    if i < n {
      GoneStays(cfg, es, i, n - 1, id);
      GoneStep(cfg, es, i, n - 1, id);
    }
  }

  // ---------- extending a run ----------

  /** An event that is possible extends a legal run. */
  lemma Snoc(cfg: Config, es: seq<Event>, e: Event)
    requires Legal(cfg, es) && Enabled(Run(cfg, es), e)
    ensures Legal(cfg, es + [e]) && Run(cfg, es + [e]) == Step(cfg, Run(cfg, es), e)
  {
    assert (es + [e])[..|es|] == es;
  }

  /** The steps that draw a UUID. */
  predicate Draws(pc: Pc) {
    pc.PutJti? || (pc.Link? && pc.link.PutRec?)
  }

  lemma Undrawn(cfg: Config, pc: Pc, db: Db, now: nat, uuid: Id)
    requires !Draws(pc)
    ensures Command(cfg, pc, uuid) == Command(cfg, pc, "")
    ensures Next(cfg, pc, db, now, uuid) == Next(cfg, pc, db, now, "")
  {
  }

  ghost function LongestId(ids: set<Id>): nat
    ensures forall i :: i in ids ==> |i| <= LongestId(ids)
  {
    if ids == {} then 0
    else
      var i :| i in ids;
      var rest := LongestId(ids - {i});
      if rest < |i| then |i| else rest
  }

  /** There is always an identifier nobody has used. */
  ghost function FreshId(ids: set<Id>): (u: Id)
    ensures u !in ids
  {
    seq(LongestId(ids) + 1, _ => 'x')
  }

  // ---------- verification ----------

  /** A request ended by handing out an access token with these claims. */
  ghost predicate HandedOut(s: Sys, claims: TokenClaims) {
    exists r :: r in s.reqs && Hands(s.reqs[r], claims)
  }

  predicate Hands(pc: Pc, claims: TokenClaims) {
    pc.Done? && (pc.outcome == Issued(claims) || (pc.outcome.Paired? && pc.outcome.access == claims))
  }

  /** Some DEL of the run named this key. */
  ghost predicate WasDeleted(cfg: Config, es: seq<Event>, key: Key) {
    exists k: nat :: k < |es| && DeletesAt(cfg, es, k, key)
  }

  ghost predicate DeletesAt(cfg: Config, es: seq<Event>, k: nat, key: Key)
    requires k < |es|
  {
    es[k].Exec? && es[k].r in StateAt(cfg, es, k).reqs
    && var cmd := Command(cfg, StateAt(cfg, es, k).reqs[es[k].r], es[k].uuid); cmd.CmdDel? && key in cmd.keys
  }

  lemma {:induction false} RemovedMeansDeleted(cfg: Config, es: seq<Event>, key: Key)
    requires Legal(cfg, es)
    ensures key in Run(cfg, es).hist.removed <==> WasDeleted(cfg, es, key)
  {
    if es != [] {
      var k: nat := |es| - 1;
      RemovedMeansDeleted(cfg, es[..k], key);
      DeletedSplit(cfg, es, key);
      RemovedStep(cfg, Run(cfg, es[..k]), es[k], key);
    }
  }

  lemma DeletedSplit(cfg: Config, es: seq<Event>, key: Key)
    requires es != []
    ensures WasDeleted(cfg, es, key) <==> WasDeleted(cfg, es[..|es| - 1], key) || DeletesAt(cfg, es, |es| - 1, key)
  {
    var front := es[..|es| - 1];
    forall i: nat | i < |front| ensures DeletesAt(cfg, es, i, key) <==> DeletesAt(cfg, front, i, key) {
      assert front[..i] == es[..i];
    }
  }

  lemma RemovedStep(cfg: Config, s: Sys, e: Event, key: Key)
    requires Enabled(s, e)
    ensures key in Step(cfg, s, e).hist.removed <==>
              key in s.hist.removed || (e.Exec? && var cmd := Command(cfg, s.reqs[e.r], e.uuid); cmd.CmdDel? && key in cmd.keys)
  {
  }

  /** The token facts of one state of a run. */
  lemma TokenAt(cfg: Config, es: seq<Event>, n: nat, j: Id)
    requires Legal(cfg, es) && n <= |es| && j in StateAt(cfg, es, n).hist.tokens
    ensures TokenExact(StateAt(cfg, es, n), j) && StateAt(cfg, es, n).hist.tokens[j].jti == j
  {
    Stages(cfg, es, n);
  }

  lemma HandedToken(cfg: Config, es: seq<Event>, n: nat, claims: TokenClaims)
    requires Legal(cfg, es) && n <= |es| && HandedOut(StateAt(cfg, es, n), claims)
    ensures claims.jti in StateAt(cfg, es, n).hist.tokens && StateAt(cfg, es, n).hist.tokens[claims.jti] == claims
  {
    Stages(cfg, es, n);
    var s := StateAt(cfg, es, n);
    var r :| r in s.reqs && Hands(s.reqs[r], claims);
    assert EntryPc(s.hist, s.reqs[r]);
  }

  /** Verification is exact: a token that was handed out passes for its issuer and one of its
    * audiences until it expires or its `jti` is deleted, and never otherwise. */
  lemma VerificationExact(cfg: Config, es: seq<Event>, claims: TokenClaims, issuer: string, audience: string)
    requires Legal(cfg, es) && HandedOut(Run(cfg, es), claims)
    ensures Verifies(Run(cfg, es).db, claims, issuer, audience, Run(cfg, es).now) <==>
              issuer == claims.iss && audience in claims.aud
              && Secs(Run(cfg, es).now) < claims.exp && !WasDeleted(cfg, es, JtiKey(claims.jti))
  {
    assert es[..|es|] == es;
    RemovedMeansDeleted(cfg, es, JtiKey(claims.jti));
    HandedToken(cfg, es, |es|, claims);
    TokenAt(cfg, es, |es|, claims.jti);
  }

  /** The claims passed verification in some state of the run. */
  ghost predicate VerifiedOnce(cfg: Config, es: seq<Event>, claims: TokenClaims) {
    exists k: nat :: k <= |es| && PassesAt(cfg, es, k, claims)
  }

  ghost predicate PassesAt(cfg: Config, es: seq<Event>, k: nat, claims: TokenClaims)
    requires k <= |es|
  {
    claims.aud != [] && Verifies(StateAt(cfg, es, k).db, claims, claims.iss, claims.aud[0], StateAt(cfg, es, k).now)
  }

  /** The request is past the self-check of these claims. */
  predicate PastCheck(pc: Pc, claims: TokenClaims) {
    (pc.Link? && pc.job.claims == claims) || Hands(pc, claims)
  }

  lemma PastCheckFrom(cfg: Config, s: Sys, e: Event, r: nat, claims: TokenClaims)
    requires Enabled(s, e) && r in Step(cfg, s, e).reqs && PastCheck(Step(cfg, s, e).reqs[r], claims)
    ensures (r in s.reqs && PastCheck(s.reqs[r], claims))
            || (claims.aud != [] && Verifies(s.db, claims, claims.iss, claims.aud[0], s.now))
  {
  }

  lemma {:induction false} PastCheckVerified(cfg: Config, es: seq<Event>, r: nat, claims: TokenClaims)
    requires Legal(cfg, es) && r in Run(cfg, es).reqs && PastCheck(Run(cfg, es).reqs[r], claims)
    ensures VerifiedOnce(cfg, es, claims)
  {
    if es != [] {
      var n: nat := |es| - 1;
      var front := es[..n];
      PastCheckFrom(cfg, Run(cfg, front), es[n], r, claims);
      if r in Run(cfg, front).reqs && PastCheck(Run(cfg, front).reqs[r], claims) {
        PastCheckVerified(cfg, front, r, claims);
        var k: nat :| k <= n && PassesAt(cfg, front, k, claims);
        assert front[..k] == es[..k];
        assert PassesAt(cfg, es, k, claims);
      } else {
        assert PassesAt(cfg, es, n, claims);
      }
    }
  }

  /** Fail-fast issue: whatever is handed out has passed its own verification, with its record in the store. */
  lemma HandedOutVerified(cfg: Config, es: seq<Event>, claims: TokenClaims)
    requires Legal(cfg, es) && HandedOut(Run(cfg, es), claims)
    ensures VerifiedOnce(cfg, es, claims)
  {
    var r :| r in Run(cfg, es).reqs && Hands(Run(cfg, es).reqs[r], claims);
    PastCheckVerified(cfg, es, r, claims);
  }

  /** No token with this `jti` verifies, for anyone. */
  ghost predicate Refused(s: Sys, j: Id) {
    j in s.hist.tokens ==>
      forall issuer, audience :: !Verifies(s.db, s.hist.tokens[j], issuer, audience, s.now)
  }

  /** An access token that is expired or deleted never verifies again. */
  lemma RefusedStays(cfg: Config, es: seq<Event>, i: nat, n: nat, j: Id)
    requires Legal(cfg, es) && i <= n <= |es| && j in StateAt(cfg, es, i).hist.tokens
    requires JtiKey(j) in StateAt(cfg, es, i).hist.removed
             || StateAt(cfg, es, i).hist.tokens[j].exp <= Secs(StateAt(cfg, es, i).now) || j !in StateAt(cfg, es, i).db.jtis
    ensures j in StateAt(cfg, es, n).hist.tokens && StateAt(cfg, es, n).hist.tokens[j] == StateAt(cfg, es, i).hist.tokens[j]
    ensures Refused(StateAt(cfg, es, n), j)
  {
    History(cfg, es, i, n);
    TokenAt(cfg, es, i, j);
    TokenAt(cfg, es, n, j);
    assert Secs(StateAt(cfg, es, i).now) <= Secs(StateAt(cfg, es, n).now);
  }

  /** Once a handed-out token fails verification it fails for good. */
  lemma NeverAgain(cfg: Config, es: seq<Event>, i: nat, n: nat, claims: TokenClaims, audience: string)
    requires Legal(cfg, es) && i <= n <= |es| && HandedOut(StateAt(cfg, es, i), claims) && audience in claims.aud
    requires !Verifies(StateAt(cfg, es, i).db, claims, claims.iss, audience, StateAt(cfg, es, i).now)
    ensures forall issuer, a :: !Verifies(StateAt(cfg, es, n).db, claims, issuer, a, StateAt(cfg, es, n).now)
  {
    HandedToken(cfg, es, i, claims);
    TokenAt(cfg, es, i, claims.jti);
    RefusedStays(cfg, es, i, n, claims.jti);
  }

  /** What is handed out is in the index of its subject, and a pair in one family index. */
  lemma HandedOutIndexed(cfg: Config, es: seq<Event>, r: nat)
    requires Legal(cfg, es) && r in Run(cfg, es).reqs && Run(cfg, es).reqs[r].Done?
    ensures forall c :: Hands(Run(cfg, es).reqs[r], c) ==> SubjectEntry(Run(cfg, es).hist, c)
    ensures Run(cfg, es).reqs[r].outcome.Paired? ==>
              exists f :: FamilyEntry(Run(cfg, es).hist, f, JtiKey(Run(cfg, es).reqs[r].outcome.access.jti))
                          && FamilyEntry(Run(cfg, es).hist, f, RefreshKey(Run(cfg, es).reqs[r].outcome.refresh))
  {
    RunInv(cfg, es);
    assert EntryPc(Run(cfg, es).hist, Run(cfg, es).reqs[r]);
  }
}
