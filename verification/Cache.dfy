/** The single-flight, stale-while-revalidate cache: the three scripts it runs inside the store
    and the invalidation, for one cache key. */
module CacheLayer {
  import opened Store

  const LOCK_SECONDS := 15
  const LOCK_MS := 1000 * LOCK_SECONDS

  /** One cache key and the durations its callers use with it. */
  datatype Config = Config(dataKey: string, lockKey: string, ttl: int, stale: int) {
    predicate Valid() {
      && dataKey != lockKey
      && 0 < ttl <= stale
    }
  }

  function DataKey(cacheKey: string): string {
    "cache:v1:" + cacheKey
  }

  function LockKey(cacheKey: string): string {
    "cache:v1:lock:" + cacheKey
  }

  /** The durations that `cached` accepts; it raises ValueError on any other pair. */
  function ConfigFor(cacheKey: string, ttl: int, stale: int): Option<Config> {
    if ttl <= 0 || stale < ttl then None else Some(Config(DataKey(cacheKey), LockKey(cacheKey), ttl, stale))
  }

  datatype Reply =
    | Fresh(blob: Blob, age: int)
    | Revalidate(blob: Blob, age: int)
    | Stale(blob: Blob, age: int)
    | MissLeader
    | MissWait
  {
    predicate TookLock() {
      Revalidate? || MissLeader?
    }

    predicate Miss() {
      MissLeader? || MissWait?
    }
  }

  predicate Holds(db: Db, c: Config, token: string) {
    db.Lookup(c.lockKey) == Some(Text(token))
  }

  function ReadReply(db: Db, c: Config, clock: int): Reply {
    var free := !db.Live(c.lockKey);
    match db.Lookup(c.dataKey)
    case Some(Hash(blob, storedAt)) =>
      var age := clock - storedAt;
      if age <= c.ttl then Fresh(blob, age)
      else if age <= c.stale then (if free then Revalidate(blob, age) else Stale(blob, age))
      else if free then MissLeader else MissWait
    case _ => if free then MissLeader else MissWait
  }

  function AfterRead(db: Db, c: Config, clock: int, token: string): Db {
    if ReadReply(db, c, clock).TookLock() then db.SetEx(c.lockKey, Text(token), LOCK_SECONDS) else db
  }

  function AfterStore(db: Db, c: Config, token: string, blob: Blob, clock: int): Db {
    if Holds(db, c, token) then
      db.HSet(c.dataKey, blob, clock).Expire(c.dataKey, c.stale).Del({c.lockKey})
    else
      db
  }

  function AfterUnlock(db: Db, c: Config, token: string): Db {
    if Holds(db, c, token) then db.Del({c.lockKey}) else db
  }

  function AfterInvalidate(db: Db, c: Config): Db {
    db.Del({c.dataKey, c.lockKey})
  }

  // The scripts themselves, as they change the store.

  /** A value of age at most ttl is fresh. Otherwise the caller who finds no lock gets it, for 15 s,
      and nobody else does; with a value that is not yet too old he is told to revalidate it. */
  method EvalRead(v: Valkey, c: Config, clock: int, token: string) returns (reply: Reply)
    modifies v
    ensures reply == ReadReply(old(v.View()), c, clock)
    ensures v.View() == AfterRead(old(v.View()), c, clock, token)
    ensures var free := !old(v.View()).Live(c.lockKey);
            match old(v.View()).Lookup(c.dataKey)
            case Some(Hash(blob, storedAt)) =>
              var age := clock - storedAt;
              if age <= c.ttl then reply == Fresh(blob, age)
              else if age <= c.stale then reply == if free then Revalidate(blob, age) else Stale(blob, age)
              else reply == if free then MissLeader else MissWait
            case _ => reply == if free then MissLeader else MissWait
    ensures if reply.Revalidate? || reply.MissLeader? then
              && v.View().Lookup(c.lockKey) == Some(Text(token)) && v.View().LivesFor(c.lockKey, 15000)
              && old(v.View()).AgreesOutside(v.View(), {c.lockKey})
            else v.View() == old(v.View())
  {
    var value := v.Get(c.dataKey);
    var won;
    if value.Some? && value.value.Hash? {
      var blob, age := value.value.blob, clock - value.value.storedAt;
      if age <= c.ttl {
        return Fresh(blob, age);
      }
      if age <= c.stale {
        won := v.SetNxEx(c.lockKey, Text(token), LOCK_SECONDS);
        return if won then Revalidate(blob, age) else Stale(blob, age);
      }
    }
    won := v.SetNxEx(c.lockKey, Text(token), LOCK_SECONDS);
    reply := if won then MissLeader else MissWait;
  }

  method EvalStore(v: Valkey, c: Config, token: string, blob: Blob, clock: int) returns (stored: bool)
    modifies v
    ensures stored == Holds(old(v.View()), c, token)
    ensures v.View() == AfterStore(old(v.View()), c, token, blob, clock)
    ensures stored <==> old(v.View()).Lookup(c.lockKey) == Some(Text(token))
    ensures !stored ==> v.View() == old(v.View())
    ensures stored && c.Valid() ==>
              && v.View().Lookup(c.dataKey) == Some(Hash(blob, clock)) && v.View().LivesFor(c.dataKey, 1000 * c.stale)
              && !v.View().Live(c.lockKey) && old(v.View()).AgreesOutside(v.View(), {c.dataKey, c.lockKey})
  {
    var owner := v.Get(c.lockKey);
    if owner != Some(Text(token)) {
      return false;
    }
    v.HSet(c.dataKey, blob, clock);
    v.Expire(c.dataKey, c.stale);
    v.Del({c.lockKey});
    stored := true;
  }

  method EvalUnlock(v: Valkey, c: Config, token: string) returns (released: bool)
    modifies v
    ensures released == Holds(old(v.View()), c, token)
    ensures v.View() == AfterUnlock(old(v.View()), c, token)
    ensures released <==> old(v.View()).Lookup(c.lockKey) == Some(Text(token))
    ensures if released then !v.View().Live(c.lockKey) && old(v.View()).AgreesOutside(v.View(), {c.lockKey})
            else v.View() == old(v.View())
  {
    var owner := v.Get(c.lockKey);
    released := owner == Some(Text(token));
    if released {
      v.Del({c.lockKey});
    }
  }

  method Invalidate(v: Valkey, c: Config)
    modifies v
    ensures v.View() == AfterInvalidate(old(v.View()), c)
    ensures !v.View().Live(c.dataKey) && !v.View().Live(c.lockKey)
    ensures old(v.View()).AgreesOutside(v.View(), {c.dataKey, c.lockKey})
  {
    v.Del({c.dataKey, c.lockKey});
  }

  // What the scripts keep.

  /** The data key of one cache key is the lock key of another exactly when the first is
      spelled "lock:" followed by the second; otherwise the key names never clash. */
  lemma KeysCollideExactly(a: string, b: string)
    ensures DataKey(a) == LockKey(b) <==> a == "lock:" + b
    ensures DataKey(a) == DataKey(b) <==> a == b
    ensures LockKey(a) == LockKey(b) <==> a == b
  {
    var p := "cache:v1:";
    assert LockKey(b) == p + ("lock:" + b);
    assert DataKey(a)[|p|..] == a && DataKey(b)[|p|..] == b;
    assert LockKey(b)[|p|..] == "lock:" + b;
    var q := "cache:v1:lock:";
    assert LockKey(a)[|q|..] == a && LockKey(b)[|q|..] == b;
  }

  /** Every accepted cache key gives a usable configuration: its two keys differ. */
  lemma ConfigForIsValid(cacheKey: string, ttl: int, stale: int)
    ensures ConfigFor(cacheKey, ttl, stale).Some? <==> 0 < ttl <= stale
    ensures ConfigFor(cacheKey, ttl, stale).Some? ==> ConfigFor(cacheKey, ttl, stale).value.Valid()
  {
    KeysCollideExactly(cacheKey, cacheKey);
    assert |"lock:" + cacheKey| != |cacheKey|;
  }

  /** Whatever one cache key's callers do leaves every other key alone. */
  lemma ScriptsAreLocal(db: Db, c: Config, token: string, blob: Blob, clock: int, others: set<string>)
    requires c.dataKey !in others && c.lockKey !in others
    ensures db.AgreesOn(AfterRead(db, c, clock, token), others)
    ensures db.AgreesOn(AfterStore(db, c, token, blob, clock), others)
    ensures db.AgreesOn(AfterUnlock(db, c, token), others)
    ensures db.AgreesOn(AfterInvalidate(db, c), others)
  {
  }

  /** The time stamp had fallen behind by more than a second's worth when the value was written:
      the second after the stamped one was already over. */
  predicate Late(storedAt: int, written: Time) {
    1000 * (storedAt + 1) < written
  }

  /** A reader misses although the key is still there only if the value was stamped late. */
  lemma MissMeansAbsentOrLate(db: Db, c: Config, clock: int)
    requires ReadReply(db, c, clock).Miss()
    requires clock <= Seconds(db.now)
    requires db.Live(c.dataKey) && db.entries[c.dataKey].value.Hash? && db.entries[c.dataKey].expiry.Some?
    ensures Late(db.entries[c.dataKey].value.storedAt, db.entries[c.dataKey].expiry.value - 1000 * c.stale)
  {
    var storedAt, expiry := db.entries[c.dataKey].value.storedAt, db.entries[c.dataKey].expiry.value;
    assert storedAt + c.stale + 1 <= clock;
    assert 1000 * (storedAt + c.stale + 1) <= db.now < expiry;
  }
}
