/** The shared expiring key-value store (Valkey) that the cache, the scheduler, the circuit
    breaker, the limiter and the upstream guard all run over.

    `Db` is a snapshot of the store and `Valkey` the store itself, whose commands change it in
    place. Time is counted in milliseconds, the resolution of the store's own expiry clock. */
module Store {

  datatype Option<+T> = None | Some(value: T)

  /** How a command sent to another process, a store or a database, ended for its sender. In the last
      two cases the sender sees an error; with `ReplyLost` the command has taken effect all the same. */
  datatype Outcome = Replied | ReplyLost | NotReached

  type Time = int

  function Seconds(t: Time): int {
    t / 1000
  }

  /** A cached response, reduced to what its guarantees speak about: the version of the source
      that it shows and the instant at which that version was sampled. */
  datatype Blob = Blob(version: nat, sampledAt: Time)

  datatype Value = Text(text: string) | Number(n: nat) | Hash(blob: Blob, storedAt: int)

  datatype Entry = Entry(value: Value, expiry: Option<Time>)

  datatype Db = Db(now: nat, entries: map<string, Entry>) {

    /** An entry past its expiry is still in the map, but every command treats it as absent. */
    predicate Live(key: string) {
      && key in entries
      && (entries[key].expiry.Some? ==> now < entries[key].expiry.value)
    }

    function Lookup(key: string): Option<Value> {
      if Live(key) then Some(entries[key].value) else None
    }

    /** The counter under `key`; an absent one counts as zero. */
    function Count(key: string): nat {
      if Live(key) && entries[key].value.Number? then entries[key].value.n else 0
    }

    function SetEx(key: string, value: Value, seconds: int): Db {
      this.(entries := entries[key := Entry(value, Some(now + 1000 * seconds))])
    }

    function SetNxEx(key: string, value: Value, seconds: int): Db {
      if Live(key) then this else SetEx(key, value, seconds)
    }

    /** INCR keeps the expiry of a live counter and starts an absent one without any. */
    function Incr(key: string): Db {
      this.(entries := entries[key := Entry(Number(Count(key) + 1), if Live(key) then entries[key].expiry else None)])
    }

    function HSet(key: string, blob: Blob, storedAt: int): Db {
      this.(entries := entries[key := Entry(Hash(blob, storedAt), if Live(key) then entries[key].expiry else None)])
    }

    function Expire(key: string, seconds: int): Db {
      if Live(key) then this.(entries := entries[key := entries[key].(expiry := Some(now + 1000 * seconds))]) else this
    }

    function Del(keys: set<string>): Db {
      this.(entries := entries - keys)
    }

    /** TTL in whole seconds, rounded to the nearest; -2 for an absent key, -1 for one without expiry. */
    function Ttl(key: string): int {
      if !Live(key) then -2
      else if entries[key].expiry.None? then -1
      else (entries[key].expiry.value - now + 500) / 1000
    }

    function Advance(ms: nat): Db {
      this.(now := now + ms)
    }

    /** The entry under `key` is there for another `ms` milliseconds, and no longer. */
    predicate LivesFor(key: string, ms: int) {
      0 < ms && key in entries && entries[key].expiry == Some(now + ms)
    }

    /** `other` is the same store at the same instant except at `keys`. */
    predicate AgreesOutside(other: Db, keys: set<string>) {
      other.now == now && other.entries - keys == entries - keys
    }

    /** `other` is the same store at the same instant except at keys outside `keys`. */
    predicate AgreesOn(other: Db, keys: set<string>) {
      && other.now == now
      && forall k <- keys :: (k in other.entries <==> k in entries) && (k in entries ==> other.entries[k] == entries[k])
    }
  }

  // What the commands mean for those who look at the store later.

  lemma LivesForExactly(db: Db, key: string, ms: int, later: nat)
    requires db.LivesFor(key, ms)
    ensures db.Advance(later).Live(key) <==> later < ms
  {
  }

  lemma SetExIsSeen(db: Db, key: string, value: Value, seconds: int, later: nat, other: string)
    requires key != other
    ensures db.SetEx(key, value, seconds).Advance(later).Lookup(key) ==
            if later < 1000 * seconds then Some(value) else None
    ensures db.SetEx(key, value, seconds).Advance(later).Lookup(other) == db.Advance(later).Lookup(other)
  {
  }

  lemma SetNxExIsSeen(db: Db, key: string, value: Value, seconds: int)
    ensures db.SetNxEx(key, value, seconds) == if db.Lookup(key).Some? then db else db.SetEx(key, value, seconds)
  {
  }

  /** A counter goes up by one and keeps its own time to live; a new one lives on without end. */
  lemma IncrIsSeen(db: Db, key: string, later: nat, other: string)
    requires key != other && (db.Lookup(key).Some? ==> db.Lookup(key).value.Number?)
    ensures db.Incr(key).Lookup(key) == Some(Number(match db.Lookup(key) case Some(Number(n)) => n + 1 case _ => 1))
    ensures db.Incr(key).Advance(later).Live(key) <==> !db.Live(key) || db.Advance(later).Live(key)
    ensures db.Incr(key).Advance(later).Lookup(other) == db.Advance(later).Lookup(other)
  {
  }

  lemma HSetIsSeen(db: Db, key: string, blob: Blob, storedAt: int, later: nat, other: string)
    requires key != other
    ensures db.HSet(key, blob, storedAt).Lookup(key) == Some(Hash(blob, storedAt))
    ensures db.HSet(key, blob, storedAt).Advance(later).Live(key) <==> !db.Live(key) || db.Advance(later).Live(key)
    ensures db.HSet(key, blob, storedAt).Advance(later).Lookup(other) == db.Advance(later).Lookup(other)
  {
  }

  lemma ExpireIsSeen(db: Db, key: string, seconds: int, later: nat, other: string)
    requires key != other
    ensures db.Expire(key, seconds).Advance(later).Lookup(key) ==
            if later < 1000 * seconds then db.Lookup(key) else None
    ensures db.Expire(key, seconds).Advance(later).Lookup(other) == db.Advance(later).Lookup(other)
  {
  }

  lemma DelIsSeen(db: Db, keys: set<string>, later: nat, key: string)
    ensures db.Del(keys).Advance(later).Lookup(key) == if key in keys then None else db.Advance(later).Lookup(key)
  {
  }

  /** The time to live that is reported is within half a second of the one that is left. */
  lemma TtlIsClose(db: Db, key: string, ms: int)
    ensures db.LivesFor(key, ms) ==> -500 <= 1000 * db.Ttl(key) - ms <= 500
    ensures !db.Live(key) ==> db.Ttl(key) == -2
    ensures db.Live(key) && db.entries[key].expiry.None? ==> db.Ttl(key) == -1
  {
  }

  class Valkey {
    var now: nat
    var entries: map<string, Entry>

    function View(): Db
      reads this
    {
      Db(now, entries)
    }

    constructor (start: nat)
      ensures View() == Db(start, map[])
    {
      now, entries := start, map[];
    }

    method Get(key: string) returns (value: Option<Value>)
      ensures value == View().Lookup(key)
    {
      if key !in entries {
        return None;
      }
      var entry := entries[key];
      match entry.expiry
      case Some(deadline) => value := if now < deadline then Some(entry.value) else None;
      case None => value := Some(entry.value);
    }

    method SetEx(key: string, value: Value, seconds: int)
      modifies this
      ensures View() == old(View()).SetEx(key, value, seconds)
    {
      entries := entries[key := Entry(value, Some(now + 1000 * seconds))];
    }

    method SetNxEx(key: string, value: Value, seconds: int) returns (won: bool)
      modifies this
      ensures won == !old(View()).Live(key)
      ensures View() == old(View()).SetNxEx(key, value, seconds)
    {
      var current := Get(key);
      won := current.None?;
      if won {
        SetEx(key, value, seconds);
      }
    }

    method Incr(key: string) returns (count: nat)
      modifies this
      ensures count == old(View()).Count(key) + 1 == View().Count(key)
      ensures View() == old(View()).Incr(key)
    {
      var current := Get(key);
      count := 1;
      var expiry := None;
      match current {
        case Some(Number(n)) => count, expiry := n + 1, entries[key].expiry;
        case Some(_) => expiry := entries[key].expiry;
        case None =>
      }
      entries := entries[key := Entry(Number(count), expiry)];
    }

    method HSet(key: string, blob: Blob, storedAt: int)
      modifies this
      ensures View() == old(View()).HSet(key, blob, storedAt)
    {
      var current := Get(key);
      var expiry := if current.Some? then entries[key].expiry else None;
      entries := entries[key := Entry(Hash(blob, storedAt), expiry)];
    }

    method Expire(key: string, seconds: int)
      modifies this
      ensures View() == old(View()).Expire(key, seconds)
    {
      var current := Get(key);
      if current.Some? {
        entries := entries[key := Entry(current.value, Some(now + 1000 * seconds))];
      }
    }

    method Del(keys: set<string>)
      modifies this
      ensures View() == old(View()).Del(keys)
    {
      entries := entries - keys;
    }

    method Ttl(key: string) returns (seconds: int)
      ensures seconds == View().Ttl(key)
    {
      var current := Get(key);
      if current.None? {
        return -2;
      }
      match entries[key].expiry
      case None => seconds := -1;
      case Some(deadline) => seconds := (deadline - now + 500) / 1000;
    }
  }
}
