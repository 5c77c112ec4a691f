/** internal/storage/postgres.go and redis.go: looking keys up and freezing them, for several
    gateway instances that share Redis and a database and each cache records in memory. */
module KillSwitch {
  import opened Options
  import opened Traces

  const DAY := 86_400_000_000_000

  /** The hex SHA-256 of a key. */
  type Hash = string -> string

  datatype Record = Record(id: string, keyHash: string, encryptedKey: string, isActive: bool, rateFrozen: bool) {
    predicate Usable() { isActive && !rateFrozen }
    function Frozen(): Record { this.(isActive := false, rateFrozen := true) }
  }

  /** Records by key hash. */
  type Keys = map<string, Record>

  /** When each freeze flag expires. */
  type Flags = map<string, int>

  datatype Reply = Found(rec: Record) | KeyFrozen | KeyInactive | KeyNotFound

  /** Which of the calls to Redis succeed. */
  datatype Writes = Writes(name: bool, hash: bool, recId: bool, recHash: bool)
  datatype Reads = Reads(name: bool, hash: bool)

  // ---------- Redis ----------

  function SetFlag(flags: Flags, name: string, now: int, ok: bool): Flags {
    if ok then flags[name := now + DAY] else flags
  }

  predicate Flagged(flags: Flags, name: string, now: int, ok: bool) {
    ok && name in flags && now < flags[name]
  }

  class RedisClient {
    var flags: Flags

    constructor ()
      ensures flags == map[]
    {
      flags := map[];
    }

    method FreezeKey(apiKey: string, now: int, ok: bool)
      modifies this
      ensures flags == SetFlag(old(flags), apiKey, now, ok)
    {
      if ok {
        flags := flags[apiKey := now + DAY];
      }
    }

    method IsKeyFrozen(apiKey: string, now: int, ok: bool) returns (frozen: bool)
      ensures frozen == Flagged(flags, apiKey, now, ok)
    {
      frozen := ok && apiKey in flags && flags[apiKey] > now;
    }
  }

  // ---------- The database ----------

  /** The UPDATE statement: every row with that id or that key hash. */
  function FreezeRows(rows: Keys, id: string, keyHash: string): Keys {
    map h | h in rows :: if rows[h].id == id || h == keyHash then rows[h].Frozen() else rows[h]
  }

  predicate AnyRow(rows: Keys, id: string, keyHash: string) {
    exists h :: h in rows && (rows[h].id == id || h == keyHash)
  }

  class Database {
    var rows: Keys

    constructor (rows: Keys)
      ensures this.rows == rows
    {
      this.rows := rows;
    }
  }

  // ---------- One instance ----------

  function Judge(rec: Record): Reply {
    if rec.rateFrozen then KeyFrozen else if !rec.isActive then KeyInactive else Found(rec)
  }

  function Lookup(
    hash: Hash, flags: Flags, rows: Keys, mem: Keys, now: int, raw: string, see: Reads, dbOk: bool): Reply
  {
    var h := hash(raw);
    if Flagged(flags, raw, now, see.name) || Flagged(flags, h, now, see.hash) then KeyFrozen
    else if h in mem then Judge(mem[h])
    else if dbOk && h in rows then Judge(rows[h])
    else KeyNotFound
  }

  /** A lookup that reaches the database leaves a copy in memory. */
  function Cached(
    hash: Hash, flags: Flags, rows: Keys, mem: Keys, now: int, raw: string, see: Reads, dbOk: bool): Keys
  {
    var h := hash(raw);
    if !Flagged(flags, raw, now, see.name) && !Flagged(flags, h, now, see.hash) && h !in mem && dbOk && h in rows
    then mem[h := rows[h]]
    else mem
  }

  predicate Matches(hash: Hash, mem: Keys, h: string, name: string)
    requires h in mem
  {
    h == hash(name) || mem[h].id == name || mem[h].encryptedKey == name
  }

  /** The loop over the map stops at the first match, in whatever order the map is walked. */
  ghost predicate MayHit(hash: Hash, mem: Keys, name: string, hit: Option<string>) {
    match hit
    case None => forall h :: h in mem ==> !Matches(hash, mem, h, name)
    case Some(h) => h in mem && Matches(hash, mem, h, name)
  }

  function FreezeFlags(
    hash: Hash, flags: Flags, mem: Keys, now: int, name: string, hit: Option<string>, w: Writes): Flags
  {
    var f := SetFlag(SetFlag(flags, name, now, w.name), hash(name), now, w.hash);
    if hit.Some? && hit.value in mem
    then SetFlag(SetFlag(f, mem[hit.value].id, now, w.recId), mem[hit.value].keyHash, now, w.recHash)
    else f
  }

  function FreezeMem(mem: Keys, hit: Option<string>): Keys {
    if hit.Some? && hit.value in mem then mem[hit.value := mem[hit.value].Frozen()] else mem
  }

  /** Whether a freeze reports that it found the key. */
  predicate ReportsDone(hit: Option<string>, rows: Keys, name: string, keyHash: string, dbOk: bool) {
    hit.Some? || (dbOk && AnyRow(rows, name, keyHash))
  }

  class PostgresRepo {
    const hash: Hash
    const redis: RedisClient
    const pool: Database
    var memKeys: Keys

    constructor (hash: Hash, redis: RedisClient, pool: Database, memKeys: Keys)
      ensures this.hash == hash && this.redis == redis && this.pool == pool && this.memKeys == memKeys
    {
      this.hash, this.redis, this.pool, this.memKeys := hash, redis, pool, memKeys;
    }

    method GetAPIKey(rawKey: string, now: int, see: Reads, dbOk: bool) returns (r: Reply)
      modifies this
      ensures r == Lookup(hash, redis.flags, pool.rows, old(memKeys), now, rawKey, see, dbOk)
      ensures memKeys == Cached(hash, redis.flags, pool.rows, old(memKeys), now, rawKey, see, dbOk)
    {
      var keyHash := hash(rawKey);
      var frozen := redis.IsKeyFrozen(rawKey, now, see.name);
      if !frozen {
        frozen := redis.IsKeyFrozen(keyHash, now, see.hash);
      }
      if frozen {
        return KeyFrozen;
      }
      if keyHash in memKeys {
        var rec := memKeys[keyHash];
        if rec.rateFrozen {
          return KeyFrozen;
        }
        if !rec.isActive {
          return KeyInactive;
        }
        return Found(rec);
      }
      if dbOk && keyHash in pool.rows {
        var rec := pool.rows[keyHash];
        memKeys := memKeys[keyHash := rec];
        if rec.rateFrozen {
          return KeyFrozen;
        }
        if !rec.isActive {
          return KeyInactive;
        }
        return Found(rec);
      }
      return KeyNotFound;
    }

    method FreezeInMemory(name: string, now: int, w: Writes) returns (hit: Option<string>)
      modifies this, redis
      ensures MayHit(hash, old(memKeys), name, hit)
      ensures memKeys == FreezeMem(old(memKeys), hit)
      ensures redis.flags == if hit.None? then old(redis.flags) else
                               SetFlag(SetFlag(old(redis.flags), old(memKeys)[hit.value].id, now, w.recId),
                                       old(memKeys)[hit.value].keyHash, now, w.recHash)
    {
      hit := None;
      var rest := memKeys.Keys;
      while rest != {}
        invariant rest <= memKeys.Keys && hit.None?
        invariant memKeys == old(memKeys) && redis.flags == old(redis.flags)
        invariant forall h :: h in memKeys.Keys - rest ==> !Matches(hash, memKeys, h, name)
        decreases |rest|
      {
        var h :| h in rest;
        var rec := memKeys[h];
        if h == hash(name) || rec.id == name || rec.encryptedKey == name {
          memKeys := memKeys[h := rec.(rateFrozen := true, isActive := false)];
          hit := Some(h);
          redis.FreezeKey(rec.id, now, w.recId);
          redis.FreezeKey(rec.keyHash, now, w.recHash);
          return;
        }
        rest := rest - {h};
      }
    }

    /** `hit` is the cached record the loop stopped at, if any. */
    method FreezeAPIKey(name: string, now: int, w: Writes, dbOk: bool) returns (ok: bool, ghost hit: Option<string>)
      modifies this, redis, pool
      ensures MayHit(hash, old(memKeys), name, hit)
      ensures redis.flags == FreezeFlags(hash, old(redis.flags), old(memKeys), now, name, hit, w)
      ensures memKeys == FreezeMem(old(memKeys), hit)
      ensures pool.rows == if dbOk then FreezeRows(old(pool.rows), name, hash(name)) else old(pool.rows)
      ensures ok <==> ReportsDone(hit, old(pool.rows), name, hash(name), dbOk)
    {
      var targetHash := hash(name);
      redis.FreezeKey(name, now, w.name);
      redis.FreezeKey(targetHash, now, w.hash);
      var first := FreezeInMemory(name, now, w);
      hit := first;
      ok := first.Some?;
      if dbOk {
        ok := ok || AnyRow(pool.rows, name, targetHash);
        pool.rows := FreezeRows(pool.rows, name, targetHash);
      }
    }
  }

  // ---------- Several instances ----------

  type Instance = nat

  datatype State = State(flags: Flags, rows: Keys, mems: map<Instance, Keys>, clock: int)

  datatype Action =
    | Start(inst: Instance, mem: Keys)      // a new instance, with whatever it was seeded with or read
    | Freeze(inst: Instance, name: string, hit: Option<string>, w: Writes, dbOk: bool)
    | Get(inst: Instance, raw: string, see: Reads, dbOk: bool)
    | Pass(d: nat)

  ghost predicate Legal(hash: Hash, s: State, a: Action) {
    match a
    case Start(i, _) => i !in s.mems
    case Freeze(i, name, hit, _, _) => i in s.mems && MayHit(hash, s.mems[i], name, hit)
    case Get(i, _, _, _) => i in s.mems
    case Pass(_) => true
  }

  function Act(hash: Hash, s: State, a: Action): State {
    match a
    case Start(i, mem) => s.(mems := s.mems[i := mem])
    case Freeze(i, name, hit, w, dbOk) =>
      if i !in s.mems then s
      else State(FreezeFlags(hash, s.flags, s.mems[i], s.clock, name, hit, w),
                 if dbOk then FreezeRows(s.rows, name, hash(name)) else s.rows,
                 s.mems[i := FreezeMem(s.mems[i], hit)], s.clock)
    case Get(i, raw, see, dbOk) =>
      if i !in s.mems then s
      else s.(mems := s.mems[i := Cached(hash, s.flags, s.rows, s.mems[i], s.clock, raw, see, dbOk)])
    case Pass(d) => s.(clock := s.clock + d)
  }

  function Continue(hash: Hash, s: State, run: Trace<Action>): State {
    match run
    case Nil => s
    case Snoc(past, a) => Act(hash, Continue(hash, s, past), a)
  }

  ghost predicate AllLegal(hash: Hash, s: State, run: Trace<Action>) {
    run.Snoc? ==> AllLegal(hash, s, run.init) && Legal(hash, Continue(hash, s, run.init), run.last)
  }

  function ReplyOf(hash: Hash, s: State, i: Instance, raw: string, see: Reads, dbOk: bool): Reply
    requires i in s.mems
  {
    Lookup(hash, s.flags, s.rows, s.mems[i], s.clock, raw, see, dbOk)
  }

  /** The instance has a usable copy of the record in memory. */
  ghost predicate Holds(s: State, i: Instance, h: string) {
    i in s.mems && h in s.mems[i] && s.mems[i][h].Usable()
  }

  // ---------- Every reply ----------

  /** The record a lookup gets hold of, from memory or else from the database. */
  function RecordFor(hash: Hash, s: State, i: Instance, raw: string, dbOk: bool): Option<Record>
    requires i in s.mems
  {
    if hash(raw) in s.mems[i] then Some(s.mems[i][hash(raw)])
    else if dbOk && hash(raw) in s.rows then Some(s.rows[hash(raw)])
    else None
  }

  /** A flag of the key, or of its hash, can be read and has not expired. */
  predicate SeenFlagged(hash: Hash, s: State, raw: string, see: Reads) {
    || (see.name && raw in s.flags && s.clock < s.flags[raw])
    || (see.hash && hash(raw) in s.flags && s.clock < s.flags[hash(raw)])
  }

  /** Which reply a lookup gives, in every case. */
  lemma ReplyExactly(hash: Hash, s: State, i: Instance, raw: string, see: Reads, dbOk: bool)
    requires i in s.mems
    ensures var r, rec := ReplyOf(hash, s, i, raw, see, dbOk), RecordFor(hash, s, i, raw, dbOk);
            var flagged := SeenFlagged(hash, s, raw, see);
            && (r == KeyFrozen <==> flagged || (rec.Some? && rec.value.rateFrozen))
            && (r == KeyNotFound <==> !flagged && rec.None?)
            && (r == KeyInactive <==> !flagged && rec.Some? && !rec.value.rateFrozen && !rec.value.isActive)
            && (r.Found? <==> !flagged && rec.Some? && !rec.value.rateFrozen && rec.value.isActive)
            && (r.Found? ==> r.rec == rec.value)
  {}

  /** What a lookup leaves in memory: what it got hold of, if no flag stopped it, and all that was
      there before. */
  lemma LookupCachesExactly(hash: Hash, s: State, i: Instance, raw: string, see: Reads, dbOk: bool, h: string)
    requires i in s.mems
    ensures var s', rec := Act(hash, s, Get(i, raw, see, dbOk)), RecordFor(hash, s, i, raw, dbOk);
            && s' == s.(mems := s'.mems) && s'.mems == s.mems[i := s'.mems[i]]
            && (h in s.mems[i] ==> h in s'.mems[i] && s'.mems[i][h] == s.mems[i][h])
            && (h !in s.mems[i] ==>
                  (h in s'.mems[i] <==> h == hash(raw) && rec.Some? && !SeenFlagged(hash, s, raw, see)))
            && (h !in s.mems[i] && h in s'.mems[i] ==> Some(s'.mems[i][h]) == rec)
  {}

  ghost predicate SomeFrozen(keys: Keys, name: string, keyHash: string) {
    exists h :: h in keys && (h == keyHash || keys[h].id == name || keys[h].encryptedKey == name)
                && keys[h].rateFrozen && !keys[h].isActive
  }

  /** No record goes by this id, this key hash or, in memory, this ciphertext. */
  ghost predicate Unknown(keys: Keys, name: string, keyHash: string, ciphertext: bool) {
    forall h :: h in keys ==> h != keyHash && keys[h].id != name && (ciphertext ==> keys[h].encryptedKey != name)
  }

  /** A freeze that reports the key as not found has changed no record, because none goes by that
      name in its memory or, if it was asked, in the database; one that reports it as done
      has left a matching record frozen and inactive, in its own memory or in the database. */
  lemma ReportIsTrue(hash: Hash, s: State, a: Action)
    requires a.Freeze? && Legal(hash, s, a)
    ensures var s', done := Act(hash, s, a), ReportsDone(a.hit, s.rows, a.name, hash(a.name), a.dbOk);
            && (!done <==> Unknown(s.mems[a.inst], a.name, hash(a.name), true)
                           && (a.dbOk ==> Unknown(s.rows, a.name, hash(a.name), false)))
            && (!done ==> s'.mems == s.mems && s'.rows == s.rows)
            && (done ==>
                  SomeFrozen(s'.mems[a.inst], a.name, hash(a.name)) || SomeFrozen(s'.rows, a.name, hash(a.name)))
  {
    var s' := Act(hash, s, a);
    if a.hit.Some? {
      var h := a.hit.value;
      assert h in s'.mems[a.inst] && s'.mems[a.inst][h] == s.mems[a.inst][h].Frozen();
    } else if a.dbOk && AnyRow(s.rows, a.name, hash(a.name)) {
      var h :| h in s.rows && (s.rows[h].id == a.name || h == hash(a.name));
      assert h in s'.rows && s'.rows[h] == s.rows[h].Frozen();
    } else {
      assert FreezeRows(s.rows, a.name, hash(a.name)) == s.rows || !a.dbOk;
    }
  }

  // ---------- Twenty-four hours ----------

  ghost predicate HoldsUntil(flags: Flags, name: string, t: int) { name in flags && flags[name] >= t }

  /** A flag, once set, never expires early: later freezes can only push its expiry back. */
  lemma {:induction false} FlagHolds(hash: Hash, s: State, run: Trace<Action>, name: string)
    requires HoldsUntil(s.flags, name, s.clock + DAY)
    ensures HoldsUntil(Continue(hash, s, run).flags, name, s.clock + DAY)
    ensures Continue(hash, s, run).clock >= s.clock
  {
    if run.Snoc? { FlagHolds(hash, s, run.init, name); }
  }

  /** The flags a freeze writes: the name it was given, that name's hash, and the id and the key
      hash of the cached record it found. */
  predicate Covers(hash: Hash, s: State, a: Action, flag: string)
    requires a.Freeze? && a.inst in s.mems
  {
    var mem := s.mems[a.inst];
    || (a.w.name && flag == a.name)
    || (a.w.hash && flag == hash(a.name))
    || (a.hit.Some? && a.hit.value in mem
        && ((a.w.recId && flag == mem[a.hit.value].id) || (a.w.recHash && flag == mem[a.hit.value].keyHash)))
  }

  /** After a freeze that wrote a raw key's flag or its hash's flag to Redis, no instance, whatever
      it has cached and whenever it started, returns a record for that key within 24 hours, as
      long as it can read that flag. */
  lemma FrozenFor24Hours(
    hash: Hash, s: State, a: Action, run: Trace<Action>, i: Instance, raw: string, see: Reads, dbOk: bool)
    requires a.Freeze? && a.inst in s.mems
    requires (see.name && Covers(hash, s, a, raw)) || (see.hash && Covers(hash, s, a, hash(raw)))
    requires var s' := Continue(hash, Act(hash, s, a), run);
             i in s'.mems && s'.clock < s.clock + DAY
    ensures ReplyOf(hash, Continue(hash, Act(hash, s, a), run), i, raw, see, dbOk) == KeyFrozen
  {
    FlagHolds(hash, Act(hash, s, a), run, if see.name && Covers(hash, s, a, raw) then raw else hash(raw));
  }

  // ---------- The instance that froze the record ----------

  ghost predicate KeptFrozen(s: State, i: Instance, h: string) {
    i in s.mems && h in s.mems[i] && s.mems[i][h].rateFrozen
  }

  lemma {:induction false} FrozenInMemoryForEver(hash: Hash, s: State, run: Trace<Action>, i: Instance, h: string)
    requires KeptFrozen(s, i, h) && AllLegal(hash, s, run)
    ensures KeptFrozen(Continue(hash, s, run), i, h)
  {
    if run.Snoc? { FrozenInMemoryForEver(hash, s, run.init, i, h); }
  }

  /** The instance that froze a record in its own map never returns it again, with Redis and the
      database up or down, for as long as it runs. */
  lemma OwnRecordNeverReturns(
    hash: Hash, s: State, a: Action, run: Trace<Action>, raw: string, see: Reads, dbOk: bool)
    requires a.Freeze? && Legal(hash, s, a) && a.hit == Some(hash(raw))
    requires AllLegal(hash, Act(hash, s, a), run)
    ensures a.inst in Continue(hash, Act(hash, s, a), run).mems
    ensures ReplyOf(hash, Continue(hash, Act(hash, s, a), run), a.inst, raw, see, dbOk) == KeyFrozen
  {
    FrozenInMemoryForEver(hash, Act(hash, s, a), run, a.inst, hash(raw));
  }

  // ---------- Exactly who can still return the record ----------

  ghost predicate NoFreeze(run: Trace<Action>) {
    run.Snoc? ==> NoFreeze(run.init) && !run.last.Freeze?
  }

  /** Until somebody freezes again no flag and no row changes, no cached record changes, and what
      is newly cached is a copy of its row. */
  lemma {:induction false} CopiesStay(hash: Hash, s: State, run: Trace<Action>, i: Instance, h: string)
    requires AllLegal(hash, s, run) && NoFreeze(run) && i in s.mems
    ensures var s' := Continue(hash, s, run);
            && s'.flags == s.flags && s'.rows == s.rows && s'.clock >= s.clock && i in s'.mems
            && (h in s.mems[i] ==> h in s'.mems[i] && s'.mems[i][h] == s.mems[i][h])
            && (h !in s.mems[i] && h in s'.mems[i] ==> h in s.rows && s'.mems[i][h] == s.rows[h])
  {
    if run.Snoc? { CopiesStay(hash, s, run.init, i, h); }
  }

  /** After the freeze the flag is up at time `now`. */
  predicate FlagUp(hash: Hash, s: State, a: Action, flag: string, now: int)
    requires a.Freeze? && a.inst in s.mems
  {
    if Covers(hash, s, a, flag) then now < s.clock + DAY else flag in s.flags && now < s.flags[flag]
  }

  /** After the freeze the instance still has a usable copy. */
  ghost predicate CopyLeft(s: State, a: Action, i: Instance, h: string)
    requires a.Freeze?
  {
    Holds(s, i, h) && !(i == a.inst && a.hit == Some(h))
  }

  /** After the freeze the database still offers the record. */
  predicate RowLeft(hash: Hash, s: State, a: Action, h: string)
    requires a.Freeze?
  {
    h in s.rows && s.rows[h].Usable() && !(a.dbOk && (s.rows[h].id == a.name || h == hash(a.name)))
  }

  lemma FreezeEffect(hash: Hash, s: State, a: Action, i: Instance, h: string)
    requires a.Freeze? && Legal(hash, s, a) && i in s.mems
    ensures var s' := Act(hash, s, a);
            && i in s'.mems && s'.clock == s.clock
            && (h in s'.mems[i] <==> h in s.mems[i])
            && (Holds(s', i, h) <==> CopyLeft(s, a, i, h))
            && (h in s'.rows && s'.rows[h].Usable() <==> RowLeft(hash, s, a, h))
  {}

  lemma FreezeRaises(hash: Hash, s: State, a: Action, flag: string, now: int)
    requires a.Freeze? && a.inst in s.mems
    ensures Flagged(Act(hash, s, a).flags, flag, now, true) <==> FlagUp(hash, s, a, flag, now)
  {}

  /** The exact reach of any freeze, by raw key, hash, record id or ciphertext, whichever of its
      writes went through and whatever flags were set before. Whatever happens afterwards short of
      another freeze, an instance that was running returns a record for a raw key if and only if
      it reads neither flag as up and either has a usable copy left, or had none cached and the
      database still offers the record, now or when the instance looked it up since. */
  lemma {:induction false} ReachOfAnyFreeze(
    hash: Hash, s: State, a: Action, run: Trace<Action>, i: Instance, raw: string, see: Reads, dbOk: bool)
    requires a.Freeze? && Legal(hash, s, a) && i in s.mems
    requires AllLegal(hash, Act(hash, s, a), run) && NoFreeze(run)
    ensures var s', h := Continue(hash, Act(hash, s, a), run), hash(raw);
            && i in s'.mems
            && (ReplyOf(hash, s', i, raw, see, dbOk).Found? <==>
                  && !(see.name && FlagUp(hash, s, a, raw, s'.clock))
                  && !(see.hash && FlagUp(hash, s, a, h, s'.clock))
                  && (CopyLeft(s, a, i, h)
                      || (h !in s.mems[i] && RowLeft(hash, s, a, h) && (dbOk || h in s'.mems[i]))))
  {
    var s1, h := Act(hash, s, a), hash(raw);
    var now := Continue(hash, s1, run).clock;
    FreezeEffect(hash, s, a, i, h);
    FreezeRaises(hash, s, a, raw, now);
    FreezeRaises(hash, s, a, h, now);
    CopiesStay(hash, s1, run, i, h);
  }

  /** For a raw key, when Redis and the database accepted everything: an instance that was running
      returns a record for the key if and only if the 24 hours are over, or it can read neither
      flag, and it had a usable copy in memory, and it is not the one whose loop stopped at that
      copy. */
  lemma ReachOfAFreeze(
    hash: Hash, s: State, a: Action, run: Trace<Action>, i: Instance, see: Reads, dbOk: bool)
    requires a.Freeze? && Legal(hash, s, a) && a.w.name && a.w.hash && a.dbOk && i in s.mems
    requires AllLegal(hash, Act(hash, s, a), run) && NoFreeze(run)
    ensures var s' := Continue(hash, Act(hash, s, a), run);
            && i in s'.mems
            && (ReplyOf(hash, s', i, a.name, see, dbOk).Found? <==>
                  && (s'.clock >= s.clock + DAY || !(see.name || see.hash))
                  && Holds(s, i, hash(a.name))
                  && !(i == a.inst && a.hit == Some(hash(a.name))))
  {
    ReachOfAnyFreeze(hash, s, a, run, i, a.name, see, dbOk);
  }

  /** Freezing a record by its id through an instance that has not cached it does not reach the
      raw key's flags: the freeze reports that it is done, and an instance that has a usable copy
      goes on returning it for ever, with Redis and the database up. */
  lemma {:induction false} FreezeByIdCanMiss(
    hash: Hash, s: State, a: Action, run: Trace<Action>, i: Instance, raw: string, see: Reads, dbOk: bool)
    requires a.Freeze? && Legal(hash, s, a) && a.hit.None? && a.dbOk
    requires Holds(s, i, hash(raw)) && hash(raw) in s.rows && s.rows[hash(raw)].id == a.name
    requires !Flagged(s.flags, raw, s.clock, true) && !Flagged(s.flags, hash(raw), s.clock, true)
    requires {a.name, hash(a.name)} !! {raw, hash(raw)}
    requires AllLegal(hash, Act(hash, s, a), run) && NoFreeze(run)
    ensures ReportsDone(a.hit, s.rows, a.name, hash(a.name), a.dbOk)
    ensures var s' := Continue(hash, Act(hash, s, a), run);
            i in s'.mems && ReplyOf(hash, s', i, raw, see, dbOk).Found?
  {
    ReachOfAnyFreeze(hash, s, a, run, i, raw, see, dbOk);
    CopiesStay(hash, Act(hash, s, a), run, i, hash(raw));
  }

  /** So the bound is tight: an instance that had cached the record returns it again at the very
      moment the flags expire. */
  lemma BoundIsTight(hash: Hash, s: State, a: Action, i: Instance)
    requires a.Freeze? && Legal(hash, s, a) && a.w.name && a.w.hash && a.dbOk
    requires i != a.inst && Holds(s, i, hash(a.name))
    ensures var s' := Act(hash, Act(hash, s, a), Pass(DAY));
            i in s'.mems && ReplyOf(hash, s', i, a.name, Reads(true, true), true).Found?
    ensures var s' := Act(hash, Act(hash, s, a), Pass(DAY - 1));
            i in s'.mems && ReplyOf(hash, s', i, a.name, Reads(true, true), true) == KeyFrozen
  {
    var s1 := Act(hash, s, a);
    assert Continue(hash, s1, Snoc(Nil, Pass(DAY))) == Act(hash, Continue(hash, s1, Nil), Pass(DAY));
    assert AllLegal(hash, s1, Nil);
    ReachOfAFreeze(hash, s, a, Snoc(Nil, Pass(DAY)), i, Reads(true, true), true);
    FrozenFor24Hours(hash, s, a, Snoc(Nil, Pass(DAY - 1)), i, a.name, Reads(true, true), true);
  }
}
