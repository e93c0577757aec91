/** The Redis data the service keeps, and each Redis command as a function on it.
  *
  * A `Db` holds exactly the keys that have not expired: `Expire` drops the rest
  * whenever the clock moves, so a command never sees a key past its deadline.
  */
module Redis {
  import opened Common

  type Id = string

  /** A store call that failed; `BadConnection` when the store could not be reached. */
  datatype JtiError = BadConnection | WrongOperation

  /** What becomes of one command on its way: it is answered, it fails before it takes effect, or its answer is lost. */
  datatype Fault = NoFault | Unsent | Unanswered

  /** Command number `k` is answered, given what becomes of each. */
  predicate Met(fault: nat -> Fault, k: nat) {
    fault(k).NoFault?
  }

  /** So is every command from `from` up to `to`. */
  predicate AllMet(fault: nat -> Fault, from: nat, to: nat) {
    forall k :: from <= k < to ==> Met(fault, k)
  }

  lemma AllMetOne(fault: nat -> Fault, k: nat)
    ensures AllMet(fault, k, k + 1) <==> Met(fault, k)
  {
  }

  lemma AllMetSplit(fault: nat -> Fault, from: nat, middle: nat, to: nat)
    requires from <= middle <= to
    ensures AllMet(fault, from, to) <==> AllMet(fault, from, middle) && AllMet(fault, middle, to)
  {
  }

  datatype GroupKey = SubjectGroup(subject: string) | FamilyGroup(family: Id)

  /** The key space; `KeyNames` proves that the strings behind these never collide. */
  datatype Key = JtiKey(jti: Id) | RefreshKey(id: Id) | GroupName(group: GroupKey) | CodeKey(hash: string)

  datatype RefreshRecord = RefreshRecord(subject: string, audience: seq<string>, family: Id)

  datatype Deadline = Never | At(millis: nat) {
    predicate Passed(now: nat) {
      At? && millis <= now
    }

    /** Whether a key with this deadline is still there when second `sec` begins. */
    predicate Covers(sec: nat) {
      At? ==> sec * MILLIS <= millis
    }
  }

  /** A ZSET of member keys scored by their expiry second. */
  datatype Group = Group(scores: map<Key, nat>, deadline: Deadline)

  /** A refresh HASH. `record` is `None` when `sub`, `aud` and `family` are missing. */
  datatype Hash = Hash(record: Option<RefreshRecord>, used: bool, deadline: Deadline)

  datatype Db = Db(
    jtis: map<Id, nat>,
    hashes: map<Id, Hash>,
    groups: map<GroupKey, Group>,
    codes: map<string, nat>)

  const EMPTY_DB := Db(map[], map[], map[], map[])

  function Expire(db: Db, now: nat): Db {
    Db(map j | j in db.jtis && now < db.jtis[j] :: db.jtis[j],
       map i | i in db.hashes && !db.hashes[i].deadline.Passed(now) :: db.hashes[i],
       map g | g in db.groups && !db.groups[g].deadline.Passed(now) :: db.groups[g],
       map c | c in db.codes && now < db.codes[c] :: db.codes[c])
  }

  /** SETEX; Redis refuses a zero lifetime, which the callers turn into a store error. */
  function SetEx(db: Db, now: nat, jti: Id, ttl: nat): Db {
    if ttl == 0 then db else db.(jtis := db.jtis[jti := now + ttl * MILLIS])
  }

  /** DEL of a batch of keys, whatever their type. */
  function Del(db: Db, keys: set<Key>): Db {
    Db(map j | j in db.jtis && JtiKey(j) !in keys :: db.jtis[j],
       map i | i in db.hashes && RefreshKey(i) !in keys :: db.hashes[i],
       map g | g in db.groups && GroupName(g) !in keys :: db.groups[g],
       map c | c in db.codes && CodeKey(c) !in keys :: db.codes[c])
  }

  /** ZADD: a group that is not there is created without a deadline. */
  function ZAdd(db: Db, g: GroupKey, member: Key, score: nat): Db {
    var prior := if g in db.groups then db.groups[g] else Group(map[], Never);
    db.(groups := db.groups[g := prior.(scores := prior.scores[member := score])])
  }

  /** EXPIREAT: overwrites the deadline, and deletes the key when the instant has passed. */
  function ExpireAt(db: Db, now: nat, g: GroupKey, sec: nat): Db {
    if g !in db.groups then db
    else if sec * MILLIS <= now then db.(groups := db.groups - {g})
    else db.(groups := db.groups[g := db.groups[g].(deadline := At(sec * MILLIS))])
  }

  /** ZREMRANGEBYSCORE -inf cutoff: an emptied ZSET disappears. */
  function ZCut(db: Db, g: GroupKey, cutoff: nat): Db {
    if g !in db.groups then db
    else
      var kept := map m | m in db.groups[g].scores && cutoff < db.groups[g].scores[m] :: db.groups[g].scores[m];
      if kept == map[] then db.(groups := db.groups - {g})
      else db.(groups := db.groups[g := db.groups[g].(scores := kept)])
  }

  /** ZRANGE 0 -1, as a set: the order is only used to build one DEL. */
  function ZRange(db: Db, g: GroupKey): set<Key> {
    if g in db.groups then db.groups[g].scores.Keys else {}
  }

  /** HSET of the three record fields; `used` and the deadline of an existing key stay. */
  function HSet(db: Db, id: Id, record: RefreshRecord): Db {
    var prior := if id in db.hashes then db.hashes[id] else Hash(None, false, Never);
    db.(hashes := db.hashes[id := prior.(record := Some(record))])
  }

  /** EXPIRE on a refresh HASH: zero seconds deletes it. */
  function HExpire(db: Db, now: nat, id: Id, ttl: nat): Db {
    if id !in db.hashes then db
    else if ttl == 0 then db.(hashes := db.hashes - {id})
    else db.(hashes := db.hashes[id := db.hashes[id].(deadline := At(now + ttl * MILLIS))])
  }

  /** HGETALL: an incomplete record reads as absent. */
  function HGetAll(db: Db, id: Id): Option<RefreshRecord> {
    if id in db.hashes then db.hashes[id].record else None
  }

  /** The answer of HSETNX `used`: true also when the key is not there at all. */
  predicate HSetNxWins(db: Db, id: Id) {
    id in db.hashes ==> !db.hashes[id].used
  }

  /** The effect of HSETNX: a missing key is created with the `used` field only. */
  function HSetNx(db: Db, id: Id): Db {
    var prior := if id in db.hashes then db.hashes[id] else Hash(None, false, Never);
    db.(hashes := db.hashes[id := prior.(used := true)])
  }

  /** SET NX EX on a code fingerprint. */
  function SetNxEx(db: Db, now: nat, hash: string, ttl: nat): Db {
    if hash in db.codes || ttl == 0 then db else db.(codes := db.codes[hash := now + ttl * MILLIS])
  }

  /** The commands that change the store. */
  datatype Cmd =
    | NoCmd
    | CmdSetEx(jti: Id, ttl: nat)
    | CmdDel(keys: set<Key>)
    | CmdZAdd(g: GroupKey, member: Key, score: nat)
    | CmdExpireAt(g: GroupKey, sec: nat)
    | CmdZCut(g: GroupKey, cutoff: nat)
    | CmdHSet(id: Id, record: RefreshRecord)
    | CmdHExpire(id: Id, ttl: nat)
    | CmdHSetNx(id: Id)

  function Apply(cmd: Cmd, db: Db, now: nat): Db {
    match cmd
    case NoCmd => db
    case CmdSetEx(jti, ttl) => SetEx(db, now, jti, ttl)
    case CmdDel(keys) => Del(db, keys)
    case CmdZAdd(g, member, score) => ZAdd(db, g, member, score)
    case CmdExpireAt(g, sec) => ExpireAt(db, now, g, sec)
    case CmdZCut(g, cutoff) => ZCut(db, g, cutoff)
    case CmdHSet(id, record) => HSet(db, id, record)
    case CmdHExpire(id, ttl) => HExpire(db, now, id, ttl)
    case CmdHSetNx(id) => HSetNx(db, id)
  }

  /** Only SETEX writes a `jti` and only DEL takes one away. */
  lemma ApplyJti(cmd: Cmd, db: Db, now: nat, j: Id)
    ensures j in Apply(cmd, db, now).jtis <==>
              (cmd.CmdSetEx? && cmd.jti == j && cmd.ttl != 0)
              || (j in db.jtis && !(cmd.CmdDel? && JtiKey(j) in cmd.keys))
    ensures j in Apply(cmd, db, now).jtis ==>
              Apply(cmd, db, now).jtis[j] ==
              if cmd.CmdSetEx? && cmd.jti == j && cmd.ttl != 0 then now + cmd.ttl * MILLIS else db.jtis[j]
  {
  }

  /** Only HSET writes a refresh record and only DEL and EXPIRE 0 take one away. */
  lemma ApplyRecord(cmd: Cmd, db: Db, now: nat, i: Id)
    ensures HGetAll(Apply(cmd, db, now), i) ==
            if cmd.CmdHSet? && cmd.id == i then Some(cmd.record)
            else if (cmd.CmdDel? && RefreshKey(i) in cmd.keys) || (cmd.CmdHExpire? && cmd.id == i && cmd.ttl == 0) then None
            else HGetAll(db, i)
  {
  }

  /** Only HSETNX marks a refresh HASH, and only HSET and HSETNX create one. */
  lemma ApplyUsed(cmd: Cmd, db: Db, now: nat, i: Id)
    requires i in Apply(cmd, db, now).hashes
    ensures i in db.hashes || (cmd.CmdHSet? && cmd.id == i) || (cmd.CmdHSetNx? && cmd.id == i)
    ensures Apply(cmd, db, now).hashes[i].used <==> (cmd.CmdHSetNx? && cmd.id == i) || (i in db.hashes && db.hashes[i].used)
  {
  }

  /** What can take a member out of a ZSET. */
  lemma ApplyRange(cmd: Cmd, db: Db, now: nat, g: GroupKey, m: Key)
    requires m in ZRange(db, g)
    requires cmd.CmdExpireAt? && cmd.g == g ==> now < cmd.sec * MILLIS
    requires cmd.CmdZCut? && cmd.g == g ==> cmd.cutoff < db.groups[g].scores[m]
    requires cmd.CmdDel? ==> GroupName(g) !in cmd.keys
    ensures m in ZRange(Apply(cmd, db, now), g)
  {
    if cmd.CmdZCut? && cmd.g == g {
      assert m in (map k | k in db.groups[g].scores && cmd.cutoff < db.groups[g].scores[k] :: db.groups[g].scores[k]);
    }
  }

  /** Where the deadline of a ZSET comes from. */
  lemma ApplyDeadline(cmd: Cmd, db: Db, now: nat, g: GroupKey)
    requires g in Apply(cmd, db, now).groups
    ensures Apply(cmd, db, now).groups[g].deadline ==
            if cmd.CmdExpireAt? && cmd.g == g then At(cmd.sec * MILLIS)
            else if g in db.groups then db.groups[g].deadline else Never
  {
  }
}
