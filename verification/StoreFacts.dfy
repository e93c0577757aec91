/** Where the group index falls short of its comment, with the exact condition and concrete inputs. */
module StoreFacts {
  import opened Common
  import opened Redis

  /** ZADD and EXPIREAT with nothing in between. */
  function AddToGroup(db: Db, now: nat, g: GroupKey, member: Key, exp: nat): Db {
    ExpireAt(ZAdd(db, g, member, exp), now, g, exp)
  }

  /** The index lasts as long as its longest-lived member. */
  ghost predicate IndexLasts(db: Db, g: GroupKey) {
    g in db.groups ==> forall m :: m in db.groups[g].scores ==> db.groups[g].deadline.Covers(db.groups[g].scores[m])
  }

  /** Adding a member keeps the index as long-lived as its longest-lived token exactly when no
    * other member expires later: the EXPIREAT sets the deadline, it does not extend it. */
  lemma IndexLastsIff(db: Db, now: nat, g: GroupKey, member: Key, exp: nat)
    requires now < exp * MILLIS
    ensures IndexLasts(AddToGroup(db, now, g, member, exp), g) <==>
              (g in db.groups ==> forall m :: m in db.groups[g].scores && m != member ==> db.groups[g].scores[m] <= exp)
  {
    var after := AddToGroup(db, now, g, member, exp);
    assert after.groups[g].deadline == At(exp * MILLIS);
    if g in db.groups {
      forall m | m in db.groups[g].scores && m != member
        ensures m in after.groups[g].scores && after.groups[g].scores[m] == db.groups[g].scores[m] {}
      if IndexLasts(after, g) {
        forall m | m in db.groups[g].scores && m != member ensures db.groups[g].scores[m] <= exp {
          assert after.groups[g].deadline.Covers(after.groups[g].scores[m]);
        }
      }
    }
  }

  /** A subject holding a token of 100 s gets one of 10 s: after 10 s the long token is alive and in no index. */
  lemma ShortTokenDropsIndex()
    ensures var g := SubjectGroup("user");
      var one := AddToGroup(SetEx(EMPTY_DB, 0, "long", 100), 0, g, JtiKey("long"), 100);
      var two := AddToGroup(SetEx(one, 0, "short", 10), 0, g, JtiKey("short"), 10);
      var later := Expire(two, 10_000);
      "long" in later.jtis && g !in later.groups && ZRange(later, g) == {}
  {
    var g := SubjectGroup("user");
    var one := AddToGroup(SetEx(EMPTY_DB, 0, "long", 100), 0, g, JtiKey("long"), 100);
    var two := AddToGroup(SetEx(one, 0, "short", 10), 0, g, JtiKey("short"), 10);
    assert two.jtis["long"] == 100_000;
    assert two.groups[g].deadline == At(10_000);
  }

  /** Storing and indexing a refresh token with nothing in between. */
  function IssueAtOnce(db: Db, now: nat, id: Id, record: RefreshRecord, ttl: nat): Db {
    AddToGroup(HExpire(HSet(db, id, record), now, id, ttl), now, FamilyGroup(record.family), RefreshKey(id), Secs(now) + ttl)
  }

  /** A refresh record outlives its own index entry exactly when it was not stored on a whole
    * second, since EXPIRE counts milliseconds and the index score whole seconds. */
  lemma RecordOutlivesIndexIff(db: Db, now: nat, id: Id, record: RefreshRecord, ttl: nat)
    requires ttl > 0 && now < (Secs(now) + ttl) * MILLIS
    ensures var d := IssueAtOnce(db, now, id, record, ttl);
      var g := FamilyGroup(record.family);
      id in d.hashes && g in d.groups && d.hashes[id].deadline.At? && d.groups[g].deadline.At?
      && (d.groups[g].deadline.millis < d.hashes[id].deadline.millis <==> now % MILLIS != 0)
      && d.hashes[id].deadline.millis < d.groups[g].deadline.millis + MILLIS
  {
    var d := IssueAtOnce(db, now, id, record, ttl);
    assert d.hashes[id].deadline == At(now + ttl * MILLIS);
    assert d.groups[FamilyGroup(record.family)].deadline == At((Secs(now) + ttl) * MILLIS);
  }

  /** Stored at 0.9 s for 10 s: at 10.5 s a sweep of the family sees nothing and the token still exchanges. */
  lemma LastSecondSurvivor()
    ensures var record := RefreshRecord("user", ["api"], "f");
      var later := Expire(IssueAtOnce(EMPTY_DB, 900, "token", record, 10), 10_500);
      ZRange(ZCut(later, FamilyGroup("f"), Secs(10_500)), FamilyGroup("f")) == {}
      && HGetAll(later, "token") == Some(record) && HSetNxWins(later, "token")
  {
    var record := RefreshRecord("user", ["api"], "f");
    var now := IssueAtOnce(EMPTY_DB, 900, "token", record, 10);
    assert now.hashes["token"] == Hash(Some(record), false, At(10_900));
    assert now.groups[FamilyGroup("f")].deadline == At(10_000);
  }

  /** An exchange that stops after its access token entered the family index leaves the index with
    * that token's deadline: when it lapses, a longer-lived access token of the family is alive
    * and a used refresh token, presented again, finds nothing to revoke. */
  lemma InterruptedExchange(a1: Id, a2: Id, r1: Id, record: RefreshRecord)
    requires a1 != a2
    ensures var g := FamilyGroup(record.family);
      var pair := IssueAtOnce(AddToGroup(SetEx(EMPTY_DB, 0, a1, 86_400), 0, g, JtiKey(a1), 86_400), 0, r1, record, 2_592_000);
      var stopped := AddToGroup(SetEx(HSetNx(pair, r1), 0, a2, 3_600), 0, g, JtiKey(a2), 3_600);
      var later := Expire(stopped, 3_600_000);
      a1 in later.jtis && HGetAll(later, r1) == Some(record) && !HSetNxWins(later, r1) && ZRange(later, g) == {}
  {
    var g := FamilyGroup(record.family);
    var one := AddToGroup(SetEx(EMPTY_DB, 0, a1, 86_400), 0, g, JtiKey(a1), 86_400);
    var pair := IssueAtOnce(one, 0, r1, record, 2_592_000);
    assert pair.hashes[r1] == Hash(Some(record), false, At(2_592_000_000)) && pair.jtis[a1] == 86_400_000;
    var stopped := AddToGroup(SetEx(HSetNx(pair, r1), 0, a2, 3_600), 0, g, JtiKey(a2), 3_600);
    assert stopped.groups[g].deadline == At(3_600_000);
  }
}
