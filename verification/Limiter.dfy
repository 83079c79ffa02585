/** The inbound rate limiter: one expiring counter per client, route class and clock minute,
    incremented by an atomic script. A request reads its minute off the clock first; its script
    may run at any later time. */
module Limiter {
  import opened Store
  import opened Text

  const WINDOW_SECONDS := 60
  const WINDOW_MS := 1000 * WINDOW_SECONDS

  datatype Class = PublicLight | PublicStandard | PublicExpensive | Mutation {
    function Name(): string {
      match this
      case PublicLight => "public_light"
      case PublicStandard => "public_standard"
      case PublicExpensive => "public_expensive"
      case Mutation => "mutation"
    }

    function Quota(): nat {
      match this
      case PublicLight => 600
      case PublicStandard => 240
      case PublicExpensive => 60
      case Mutation => 30
    }
  }

  datatype Bucket = Bucket(class_: Class, client: string, window: nat) {
    function Key(): string {
      "rl:" + class_.Name() + [':'] + (client + [':'] + Decimal(window))
    }
  }

  /** The key of every bucket. The counting below needs nothing of it but that it is injective. */
  function RealKeys(): Bucket -> string {
    (b: Bucket) => b.Key()
  }

  ghost predicate Injective(keys: Bucket -> string) {
    forall a, b :: keys(a) == keys(b) ==> a == b
  }

  lemma SplitKey(name: string, client: string, window: string, name': string, client': string, window': string)
    requires "rl:" + name + [':'] + (client + [':'] + window) == "rl:" + name' + [':'] + (client' + [':'] + window')
    requires ':' !in name && ':' !in name' && ':' !in window && ':' !in window'
    ensures name == name' && client == client' && window == window'
  {
    var p := "rl:";
    var rest, rest' := client + [':'] + window, client' + [':'] + window';
    assert (p + name + [':'] + rest)[|p|..] == name + [':'] + rest;
    assert (p + name' + [':'] + rest')[|p|..] == name' + [':'] + rest';
    SplitAtFirst(name, rest, name', rest', ':');
    SplitAtLast(client, window, client', window', ':');
  }

  lemma NamesDiffer(a: Class, b: Class)
    ensures ':' !in a.Name()
    ensures a.Name() == b.Name() ==> a == b
  {
    if a.Name() == b.Name() {
      assert |a.Name()| == |b.Name()| && a.Name()[7] == b.Name()[7];
    }
  }

  /** Two requests share a counter only if they share client, class and minute, whatever the
      client identifier looks like. */
  lemma KeysAreInjective()
    ensures Injective(RealKeys())
  {
    forall a: Bucket, b: Bucket | RealKeys()(a) == RealKeys()(b)
      ensures a == b
    {
      NamesDiffer(a.class_, b.class_);
      NamesDiffer(b.class_, a.class_);
      DecimalIsDigits(a.window);
      DecimalIsDigits(b.window);
      SplitKey(a.class_.Name(), a.client, Decimal(a.window), b.class_.Name(), b.client, Decimal(b.window));
      DecimalInjective(a.window, b.window);
    }
  }

  /** `clock` is the clock reading that names the minute, `at` the instant of the script. */
  datatype Request = Request(clock: nat, at: nat, class_: Class, client: string) {
    function Window(): nat {
      Seconds(clock) / WINDOW_SECONDS
    }

    function BucketOf(): Bucket {
      Bucket(class_, client, Window())
    }
  }

  function AfterScript(db: Db, key: string): Db {
    var counted := db.Incr(key);
    if counted.Count(key) == 1 then counted.Expire(key, WINDOW_SECONDS) else counted
  }

  /** The first part of the script's answer: -1 for a refusal. */
  function Remaining(db: Db, key: string, limit: nat): int {
    var count := db.Count(key) + 1;
    if count > limit then -1 else limit - count
  }

  /** What the handler reports: status 503 when it is `Unavailable`, and 429 when it has an answer
      and `admitted` is false. */
  datatype Decision = Unavailable | Decided(admitted: bool, limit: nat, remaining: nat, reset: int)

  method EvalFixedWindow(v: Valkey, key: string, limit: nat) returns (remaining: int)
    modifies v
    ensures remaining == Remaining(old(v.View()), key, limit)
    ensures v.View() == AfterScript(old(v.View()), key)
    ensures var count := old(v.View()).Count(key) + 1;
            && remaining == (if count <= limit then limit - count else -1)
            && v.View().Lookup(key) == Some(Number(count)) && old(v.View()).AgreesOutside(v.View(), {key})
            && (count == 1 ==> v.View().LivesFor(key, 60000))
            && (count > 1 ==> forall ms: nat :: v.View().Advance(ms).Live(key) <==> old(v.View()).Advance(ms).Live(key))
  {
    var count := v.Incr(key);
    if count == 1 {
      v.Expire(key, WINDOW_SECONDS);
    }
    remaining := if count > limit then -1 else limit - count;
  }

  /** One request. It is counted whenever the script runs, even if the handler never learns of it. */
  method Limit(v: Valkey, class_: Class, client: string, clock: nat, reported: nat, outcome: Outcome)
    returns (decision: Decision)
    modifies v
    ensures var r := Request(clock, 0, class_, client);
            && v.View() ==
               (if outcome.NotReached? then old(v.View()) else AfterScript(old(v.View()), r.BucketOf().Key()))
            && (decision.Unavailable? <==> !outcome.Replied?)
            && (decision.Decided? ==>
                  && decision.admitted == Admits(RealKeys(), old(v.View()), r)
                  && decision.limit == class_.Quota()
                  && decision.remaining ==
                     (if decision.admitted then Remaining(old(v.View()), r.BucketOf().Key(), class_.Quota()) else 0)
                  && decision.reset == Seconds(reported) + WINDOW_SECONDS)
  {
    if outcome.NotReached? {
      return Unavailable;
    }
    var bucket := Request(clock, 0, class_, client).BucketOf();
    var remaining := EvalFixedWindow(v, bucket.Key(), class_.Quota());
    if outcome.ReplyLost? {
      return Unavailable;
    }
    var left := if remaining >= 0 then remaining else 0;
    decision := Decided(remaining >= 0, class_.Quota(), left, Seconds(reported) + WINDOW_SECONDS);
  }

  predicate Admits(keys: Bucket -> string, db: Db, r: Request) {
    Remaining(db, keys(r.BucketOf()), r.class_.Quota()) >= 0
  }

  // Whole traces of requests, in the order in which their scripts run.

  ghost predicate Trace(keys: Bucket -> string, start: Db, requests: seq<Request>) {
    && Injective(keys) && (forall b: Bucket :: keys(b) !in start.entries)
    && forall i, j | 0 <= i <= j < |requests| :: requests[i].at <= requests[j].at
  }

  /** The store when request number `n` arrives. */
  function Before(keys: Bucket -> string, start: Db, requests: seq<Request>, n: nat): Db
    requires n < |requests|
  {
    var db := if n == 0 then start
              else AfterScript(Before(keys, start, requests, n - 1), keys(requests[n - 1].BucketOf()));
    db.(now := requests[n].at)
  }

  predicate Admitted(keys: Bucket -> string, start: Db, requests: seq<Request>, n: nat)
    requires n < |requests|
  {
    Admits(keys, Before(keys, start, requests, n), requests[n])
  }

  /** How many of the first `n` requests fall into bucket `b`. */
  function Arrived(requests: seq<Request>, n: nat, b: Bucket): nat
    requires n <= |requests|
  {
    if n == 0 then 0 else Arrived(requests, n - 1, b) + (if requests[n - 1].BucketOf() == b then 1 else 0)
  }

  /** When the first of the first `n` requests of bucket `b` ran. */
  function FirstAt(requests: seq<Request>, n: nat, b: Bucket): nat
    requires n <= |requests| && Arrived(requests, n, b) > 0
  {
    if Arrived(requests, n - 1, b) > 0 then FirstAt(requests, n - 1, b) else requests[n - 1].at
  }

  /** A request whose script runs before the counter of its bucket is a minute old. */
  predicate OnTime(requests: seq<Request>, n: nat)
    requires n < |requests|
  {
    var b := requests[n].BucketOf();
    Arrived(requests, n, b) > 0 ==> requests[n].at < FirstAt(requests, n, b) + WINDOW_MS
  }

  predicate AllOnTime(requests: seq<Request>, n: nat)
    requires n <= |requests|
  {
    forall i | 0 <= i < n :: OnTime(requests, i)
  }

  /** The counter under `key` has counted `count` requests and lives until `deadline`. */
  predicate Tracks(db: Db, key: string, count: nat, deadline: Time) {
    if count == 0 then key !in db.entries
    else key in db.entries && db.entries[key] == Entry(Number(count), Some(deadline))
  }

  /** The script under key `ran` moves the counter under `key` only if they are the same. */
  lemma ScriptTracks(db: Db, ran: string, key: string, count: nat, deadline: Time, at: nat)
    requires Tracks(db, key, count, deadline)
    requires ran == key ==> if count == 0 then deadline == db.now + WINDOW_MS else db.now < deadline
    ensures Tracks(AfterScript(db, ran).(now := at), key, if ran == key then count + 1 else count, deadline)
  {
  }

  function Deadline(requests: seq<Request>, n: nat, b: Bucket): Time
    requires n <= |requests|
  {
    if Arrived(requests, n, b) > 0 then FirstAt(requests, n, b) + WINDOW_MS else 0
  }

  /** As long as no request is late, a counter has counted exactly the requests of its bucket. */
  lemma {:induction false} CounterCounts(keys: Bucket -> string, start: Db, requests: seq<Request>, n: nat, b: Bucket)
    requires Trace(keys, start, requests) && n < |requests| && AllOnTime(requests, n)
    ensures Tracks(Before(keys, start, requests, n), keys(b), Arrived(requests, n, b), Deadline(requests, n, b))
  {
    if n > 0 {
      var last := requests[n - 1];
      CounterCounts(keys, start, requests, n - 1, b);
      if last.BucketOf() == b {
        assert OnTime(requests, n - 1);
      }
      var deadline := if Arrived(requests, n, b) > 0 then Deadline(requests, n, b) else 0;
      var db := Before(keys, start, requests, n - 1);
      ScriptTracks(db, keys(last.BucketOf()), keys(b), Arrived(requests, n - 1, b), deadline, requests[n].at);
    }
  }

  /** The count that decides a request is exact if and only if the request is on time: a late one
      finds the counter gone and starts a second one for the same minute. */
  lemma CountIsExactIfAndOnlyIfOnTime(keys: Bucket -> string, start: Db, requests: seq<Request>, n: nat)
    requires Trace(keys, start, requests) && n < |requests| && AllOnTime(requests, n)
    ensures var count := Before(keys, start, requests, n).Count(keys(requests[n].BucketOf()));
            && (count == Arrived(requests, n, requests[n].BucketOf()) <==> OnTime(requests, n))
            && (!OnTime(requests, n) ==> count == 0)
  {
    CounterCounts(keys, start, requests, n, requests[n].BucketOf());
  }

  /** A request whose script runs inside the minute that it has read off the clock. */
  predicate InItsMinute(r: Request) {
    WINDOW_MS * r.Window() <= r.at < WINDOW_MS * (r.Window() + 1)
  }

  /** Requests whose scripts run inside the minute they have read are all on time. */
  lemma {:induction false} WithinTheMinuteIsOnTime(requests: seq<Request>, n: nat)
    requires n < |requests| && forall i | 0 <= i < |requests| :: InItsMinute(requests[i])
    ensures OnTime(requests, n)
  {
    if Arrived(requests, n, requests[n].BucketOf()) > 0 {
      assert InItsMinute(requests[n]);
      FirstIsInTheMinute(requests, n, requests[n].BucketOf());
    }
  }

  lemma {:induction false} FirstIsInTheMinute(requests: seq<Request>, n: nat, b: Bucket)
    requires n <= |requests| && Arrived(requests, n, b) > 0
    requires forall i | 0 <= i < |requests| :: InItsMinute(requests[i])
    ensures WINDOW_MS * b.window <= FirstAt(requests, n, b)
  {
    assert InItsMinute(requests[n - 1]);
    if Arrived(requests, n - 1, b) > 0 {
      FirstIsInTheMinute(requests, n - 1, b);
    }
  }

  /** A request is admitted exactly when fewer than its quota of requests of the same client,
      class and minute came before it. */
  lemma AdmittedIfAndOnlyIfUnderQuota(keys: Bucket -> string, start: Db, requests: seq<Request>, n: nat)
    requires Trace(keys, start, requests) && n < |requests| && AllOnTime(requests, n + 1)
    ensures Admitted(keys, start, requests, n)
            <==> Arrived(requests, n, requests[n].BucketOf()) < requests[n].class_.Quota()
  {
    assert OnTime(requests, n);
    CountIsExactIfAndOnlyIfOnTime(keys, start, requests, n);
  }

  /** The first requests are told how many of the quota are left after them, the others -1. */
  lemma RemainingCountsDown(keys: Bucket -> string, start: Db, requests: seq<Request>, n: nat)
    requires Trace(keys, start, requests) && n < |requests| && AllOnTime(requests, n + 1)
    ensures var b := requests[n].BucketOf();
            var earlier, quota := Arrived(requests, n, b), b.class_.Quota();
            Remaining(Before(keys, start, requests, n), keys(b), quota) ==
            if earlier < quota then quota - 1 - earlier else -1
  {
    assert OnTime(requests, n);
    CountIsExactIfAndOnlyIfOnTime(keys, start, requests, n);
  }

  /** Which requests of a trace are admitted. */
  function Verdicts(keys: Bucket -> string, start: Db, requests: seq<Request>): nat -> bool {
    (i: nat) => i < |requests| && Admitted(keys, start, requests, i)
  }

  function Passed(admitted: nat -> bool, requests: seq<Request>, n: nat, b: Bucket): nat
    requires n <= |requests|
  {
    if n == 0 then 0
    else Passed(admitted, requests, n - 1, b) + (if requests[n - 1].BucketOf() == b && admitted(n - 1) then 1 else 0)
  }

  /** If requests are admitted while fewer than the quota have come before, then as many are admitted
      as arrive or as the quota allows. */
  lemma {:induction false} FirstOnesPass(admitted: nat -> bool, requests: seq<Request>, n: nat, b: Bucket, quota: nat)
    requires n <= |requests|
    requires forall i | 0 <= i < n && requests[i].BucketOf() == b :: admitted(i) <==> Arrived(requests, i, b) < quota
    ensures Passed(admitted, requests, n, b) ==
            if Arrived(requests, n, b) <= quota then Arrived(requests, n, b) else quota
  {
    if n > 0 {
      FirstOnesPass(admitted, requests, n - 1, b, quota);
    }
  }

  /** Of n requests of one client and class in one minute exactly min(n, quota) are admitted. */
  lemma ExactlyTheQuotaPasses(keys: Bucket -> string, start: Db, requests: seq<Request>, n: nat, b: Bucket)
    requires Trace(keys, start, requests) && n <= |requests| && AllOnTime(requests, n)
    ensures Passed(Verdicts(keys, start, requests), requests, n, b) ==
            if Arrived(requests, n, b) <= b.class_.Quota() then Arrived(requests, n, b) else b.class_.Quota()
    ensures Passed(Verdicts(keys, start, requests), requests, n, b) <=
            match b.class_
            case PublicLight => 600
            case PublicStandard => 240
            case PublicExpensive => 60
            case Mutation => 30
    ensures Arrived(requests, n, b) >= 600 ==>
              (Passed(Verdicts(keys, start, requests), requests, n, b) ==
               match b.class_
               case PublicLight => 600
               case PublicStandard => 240
               case PublicExpensive => 60
               case Mutation => 30)
  {
    forall i | 0 <= i < n && requests[i].BucketOf() == b
      ensures Verdicts(keys, start, requests)(i) <==> Arrived(requests, i, b) < b.class_.Quota()
    {
      AdmittedIfAndOnlyIfUnderQuota(keys, start, requests, i);
    }
    FirstOnesPass(Verdicts(keys, start, requests), requests, n, b, b.class_.Quota());
  }

  /** How many of the first `n` requests of a client and class are admitted within a minute's
      length from `from` on. */
  function PassedSince(admitted: nat -> bool, requests: seq<Request>, n: nat, class_: Class, client: string,
      from: nat): nat
    requires n <= |requests|
  {
    if n == 0 then 0
    else
      var r := requests[n - 1];
      PassedSince(admitted, requests, n - 1, class_, client, from)
      + (if r.class_ == class_ && r.client == client && from <= r.clock < from + WINDOW_MS && admitted(n - 1)
         then 1 else 0)
  }

  /** Any interval of 60 s of clock readings, aligned or not, admits at most twice the quota. */
  lemma SlidingMinuteAdmitsTwiceTheQuota(keys: Bucket -> string, start: Db, requests: seq<Request>, class_: Class,
      client: string, from: nat)
    requires Trace(keys, start, requests) && AllOnTime(requests, |requests|)
    ensures PassedSince(Verdicts(keys, start, requests), requests, |requests|, class_, client, from)
            <= 2 * class_.Quota()
  {
    var first := Bucket(class_, client, from / WINDOW_MS);
    var second := Bucket(class_, client, from / WINDOW_MS + 1);
    TwoMinutesCover(Verdicts(keys, start, requests), requests, |requests|, class_, client, from, from / WINDOW_MS);
    ExactlyTheQuotaPasses(keys, start, requests, |requests|, first);
    ExactlyTheQuotaPasses(keys, start, requests, |requests|, second);
  }

  lemma MinuteOf(r: Request, from: nat, w: nat)
    requires WINDOW_MS * w <= from < WINDOW_MS * (w + 1) && from <= r.clock < from + WINDOW_MS
    ensures r.BucketOf() == Bucket(r.class_, r.client, w) || r.BucketOf() == Bucket(r.class_, r.client, w + 1)
  {
    WindowBounds(r);
  }

  lemma WindowBounds(r: Request)
    ensures WINDOW_MS * r.Window() <= r.clock < WINDOW_MS * (r.Window() + 1)
  {
  }

  lemma {:induction false} TwoMinutesCover(admitted: nat -> bool, requests: seq<Request>, n: nat, class_: Class,
      client: string, from: nat, w: nat)
    requires n <= |requests| && WINDOW_MS * w <= from < WINDOW_MS * (w + 1)
    ensures PassedSince(admitted, requests, n, class_, client, from)
            <= Passed(admitted, requests, n, Bucket(class_, client, w))
               + Passed(admitted, requests, n, Bucket(class_, client, w + 1))
  {
    if n > 0 {
      var r := requests[n - 1];
      TwoMinutesCover(admitted, requests, n - 1, class_, client, from, w);
      if r.class_ == class_ && r.client == client && from <= r.clock < from + WINDOW_MS {
        MinuteOf(r, from, w);
      }
    }
  }

  /** How many of the first `n` requests of a client and class are admitted by scripts that run
      within a minute's length from `from` on. */
  function PassedDuring(admitted: nat -> bool, requests: seq<Request>, n: nat, class_: Class, client: string,
      from: nat): nat
    requires n <= |requests|
  {
    if n == 0 then 0
    else
      var r := requests[n - 1];
      PassedDuring(admitted, requests, n - 1, class_, client, from)
      + (if r.class_ == class_ && r.client == client && from <= r.at < from + WINDOW_MS && admitted(n - 1)
         then 1 else 0)
  }

  function PassedInWindow(admitted: nat -> bool, requests: seq<Request>, n: nat, class_: Class, client: string,
      w: int): nat
    requires n <= |requests|
  {
    if w < 0 then 0 else Passed(admitted, requests, n, Bucket(class_, client, w))
  }

  /** The scripts that run from `from` on for a minute belong to the minutes from `lo` to `lo + 2`. */
  predicate RunNear(r: Request, from: nat, lo: int) {
    from <= r.at < from + WINDOW_MS ==> lo <= r.Window() <= lo + 2
  }

  lemma {:induction false} ThreeMinutesCover(admitted: nat -> bool, requests: seq<Request>, n: nat, class_: Class,
      client: string, from: nat, lo: int)
    requires n <= |requests| && forall i | 0 <= i < n :: RunNear(requests[i], from, lo)
    ensures PassedDuring(admitted, requests, n, class_, client, from)
            <= PassedInWindow(admitted, requests, n, class_, client, lo)
               + PassedInWindow(admitted, requests, n, class_, client, lo + 1)
               + PassedInWindow(admitted, requests, n, class_, client, lo + 2)
  {
    if n > 0 {
      var r := requests[n - 1];
      ThreeMinutesCover(admitted, requests, n - 1, class_, client, from, lo);
      assert RunNear(r, from, lo);
    }
  }

  lemma WindowKeepsTheQuota(keys: Bucket -> string, start: Db, requests: seq<Request>, class_: Class, client: string,
      w: int)
    requires Trace(keys, start, requests) && AllOnTime(requests, |requests|)
    ensures PassedInWindow(Verdicts(keys, start, requests), requests, |requests|, class_, client, w) <= class_.Quota()
  {
    if w >= 0 {
      ExactlyTheQuotaPasses(keys, start, requests, |requests|, Bucket(class_, client, w));
    }
  }

  /** A script that runs less than a minute after its clock reading. */
  predicate LessThanAMinuteLate(r: Request) {
    r.clock <= r.at < r.clock + WINDOW_MS
  }

  /** By the instants at which the scripts run, any 60 s admit at most three times the quota as long
      as all requests are on time and none is a minute late. */
  lemma SlidingInstantsAdmitThreeTimesTheQuota(keys: Bucket -> string, start: Db, requests: seq<Request>,
      class_: Class, client: string, from: nat)
    requires Trace(keys, start, requests) && AllOnTime(requests, |requests|)
    requires forall i | 0 <= i < |requests| :: LessThanAMinuteLate(requests[i])
    ensures PassedDuring(Verdicts(keys, start, requests), requests, |requests|, class_, client, from)
            <= 3 * class_.Quota()
  {
    var lo := from / WINDOW_MS - 1;
    forall i | 0 <= i < |requests|
      ensures RunNear(requests[i], from, lo)
    {
      assert LessThanAMinuteLate(requests[i]);
      WindowBounds(requests[i]);
    }
    ThreeMinutesCover(Verdicts(keys, start, requests), requests, |requests|, class_, client, from, lo);
    WindowKeepsTheQuota(keys, start, requests, class_, client, lo);
    WindowKeepsTheQuota(keys, start, requests, class_, client, lo + 1);
    WindowKeepsTheQuota(keys, start, requests, class_, client, lo + 2);
  }

  lemma {:induction false} TwoMinutesCoverInstants(admitted: nat -> bool, requests: seq<Request>, n: nat,
      class_: Class, client: string, from: nat, w: nat)
    requires n <= |requests| && WINDOW_MS * w <= from < WINDOW_MS * (w + 1)
    requires forall i | 0 <= i < |requests| :: InItsMinute(requests[i])
    ensures PassedDuring(admitted, requests, n, class_, client, from)
            <= Passed(admitted, requests, n, Bucket(class_, client, w))
               + Passed(admitted, requests, n, Bucket(class_, client, w + 1))
  {
    if n > 0 {
      TwoMinutesCoverInstants(admitted, requests, n - 1, class_, client, from, w);
      assert InItsMinute(requests[n - 1]);
    }
  }

  /** It is at most twice the quota if the scripts run inside the minute that they have read. */
  lemma SlidingInstantsAdmitTwiceTheQuota(keys: Bucket -> string, start: Db, requests: seq<Request>, class_: Class,
      client: string, from: nat)
    requires Trace(keys, start, requests) && forall i | 0 <= i < |requests| :: InItsMinute(requests[i])
    ensures PassedDuring(Verdicts(keys, start, requests), requests, |requests|, class_, client, from)
            <= 2 * class_.Quota()
  {
    forall i | 0 <= i < |requests|
      ensures OnTime(requests, i)
    {
      WithinTheMinuteIsOnTime(requests, i);
    }
    var w := from / WINDOW_MS;
    TwoMinutesCoverInstants(Verdicts(keys, start, requests), requests, |requests|, class_, client, from, w);
    ExactlyTheQuotaPasses(keys, start, requests, |requests|, Bucket(class_, client, w));
    ExactlyTheQuotaPasses(keys, start, requests, |requests|, Bucket(class_, client, w + 1));
  }

  /** A request of minute 0, 1 or 2, all running within 60 s: the one of minute 0 has read the clock at
      the end of its minute and runs two milliseconds later. */
  function Part(class_: Class, client: string, w: nat): Request {
    if w == 0 then Request(WINDOW_MS - 1, WINDOW_MS + 1, class_, client)
    else if w == 1 then Request(WINDOW_MS + 1, WINDOW_MS + 1, class_, client)
    else Request(2 * WINDOW_MS, 2 * WINDOW_MS, class_, client)
  }

  function MinuteAt(quota: nat, i: nat): nat {
    if i < quota then 0 else if i < 2 * quota then 1 else 2
  }

  function ThreeQuotas(class_: Class, client: string): seq<Request> {
    seq(3 * class_.Quota(), (i: nat) => Part(class_, client, MinuteAt(class_.Quota(), i)))
  }

  /** The requests of minute `w` among the first `n`. */
  function PartOf(quota: nat, n: nat, w: nat): nat {
    var before := if w == 0 then 0 else if w == 1 then quota else 2 * quota;
    if n <= before then 0 else if n <= before + quota then n - before else quota
  }

  predicate AtMostLate(r: Request, ms: nat) {
    r.clock <= r.at <= r.clock + ms
  }

  lemma PartIsInMinute(class_: Class, client: string, w: nat)
    requires w <= 2
    ensures Part(class_, client, w).BucketOf() == Bucket(class_, client, w)
    ensures AtMostLate(Part(class_, client, w), 2)
  {
  }

  lemma PartGrows(quota: nat, n: nat, w: nat)
    requires n < 3 * quota && w <= 2
    ensures PartOf(quota, n + 1, w) == PartOf(quota, n, w) + if MinuteAt(quota, n) == w then 1 else 0
  {
  }

  lemma {:induction false} PartsArrive(class_: Class, client: string, n: nat, w: nat)
    requires n <= 3 * class_.Quota() && w <= 2
    ensures var requests, b := ThreeQuotas(class_, client), Bucket(class_, client, w);
            && Arrived(requests, n, b) == PartOf(class_.Quota(), n, w)
            && (Arrived(requests, n, b) > 0 ==> FirstAt(requests, n, b) == Part(class_, client, w).at)
  {
    if n > 0 {
      PartsArrive(class_, client, n - 1, w);
      PartGrows(class_.Quota(), n - 1, w);
      PartIsInMinute(class_, client, MinuteAt(class_.Quota(), n - 1));
    }
  }

  lemma PartsOnTime(class_: Class, client: string, i: nat)
    requires i < 3 * class_.Quota()
    ensures OnTime(ThreeQuotas(class_, client), i)
  {
    var w := MinuteAt(class_.Quota(), i);
    PartIsInMinute(class_, client, w);
    PartsArrive(class_, client, i, w);
  }

  lemma {:induction false} PartsPassTogether(admitted: nat -> bool, class_: Class, client: string, n: nat)
    requires n <= 3 * class_.Quota()
    ensures var requests := ThreeQuotas(class_, client);
            PassedDuring(admitted, requests, n, class_, client, WINDOW_MS + 1)
            == Passed(admitted, requests, n, Bucket(class_, client, 0))
               + Passed(admitted, requests, n, Bucket(class_, client, 1))
               + Passed(admitted, requests, n, Bucket(class_, client, 2))
  {
    if n > 0 {
      PartsPassTogether(admitted, class_, client, n - 1);
      PartIsInMinute(class_, client, MinuteAt(class_.Quota(), n - 1));
    }
  }

  /** Three times the quota is reached: all these requests are on time, at most two milliseconds late
      and admitted, and their scripts run within 60 s. */
  lemma ThreeTimesTheQuotaIsReached(keys: Bucket -> string, start: Db, class_: Class, client: string)
    requires Injective(keys) && forall b: Bucket :: keys(b) !in start.entries
    ensures var requests := ThreeQuotas(class_, client);
            && Trace(keys, start, requests) && AllOnTime(requests, |requests|)
            && (forall i | 0 <= i < |requests| :: AtMostLate(requests[i], 2))
            && PassedDuring(Verdicts(keys, start, requests), requests, |requests|, class_, client, WINDOW_MS + 1)
               == 3 * class_.Quota()
  {
    var requests := ThreeQuotas(class_, client);
    forall i | 0 <= i < |requests|
      ensures OnTime(requests, i) && AtMostLate(requests[i], 2)
    {
      PartsOnTime(class_, client, i);
      PartIsInMinute(class_, client, MinuteAt(class_.Quota(), i));
    }
    PartsInOrder(class_, client);
    EveryPartPasses(keys, start, class_, client, 0);
    EveryPartPasses(keys, start, class_, client, 1);
    EveryPartPasses(keys, start, class_, client, 2);
    PartsPassTogether(Verdicts(keys, start, requests), class_, client, |requests|);
  }

  lemma PartsInOrder(class_: Class, client: string)
    ensures var requests := ThreeQuotas(class_, client);
            forall i, j | 0 <= i <= j < |requests| :: requests[i].at <= requests[j].at
  {
  }

  lemma EveryPartPasses(keys: Bucket -> string, start: Db, class_: Class, client: string, w: nat)
    requires w <= 2 && Trace(keys, start, ThreeQuotas(class_, client))
    requires AllOnTime(ThreeQuotas(class_, client), 3 * class_.Quota())
    ensures var requests := ThreeQuotas(class_, client);
            Passed(Verdicts(keys, start, requests), requests, |requests|, Bucket(class_, client, w)) == class_.Quota()
  {
    PartsArrive(class_, client, 3 * class_.Quota(), w);
    ExactlyTheQuotaPasses(keys, start, ThreeQuotas(class_, client), 3 * class_.Quota(), Bucket(class_, client, w));
  }

  // What late requests can do.

  /** `n` requests, one for each of the minutes 0 to n - 1, whose scripts all run at the end of them. */
  function Stragglers(class_: Class, client: string, n: nat): seq<Request> {
    seq(n, (i: nat) => Request(WINDOW_MS * i, WINDOW_MS * n, class_, client))
  }

  lemma {:induction false} StragglersAreFirst(class_: Class, client: string, n: nat, i: nat, w: nat)
    requires i <= w < n
    ensures Arrived(Stragglers(class_, client, n), i, Bucket(class_, client, w)) == 0
  {
    if i > 0 {
      StragglersAreFirst(class_, client, n, i - 1, w);
    }
  }

  lemma StragglerIsAdmitted(keys: Bucket -> string, start: Db, class_: Class, client: string, n: nat, i: nat)
    requires Trace(keys, start, Stragglers(class_, client, n)) && i < n && AllOnTime(Stragglers(class_, client, n), i)
    ensures OnTime(Stragglers(class_, client, n), i) && Admitted(keys, start, Stragglers(class_, client, n), i)
  {
    var requests := Stragglers(class_, client, n);
    assert requests[i].BucketOf() == Bucket(class_, client, i);
    StragglersAreFirst(class_, client, n, i, i);
    AdmittedIfAndOnlyIfUnderQuota(keys, start, requests, i);
  }

  lemma {:induction false} StragglersPass(keys: Bucket -> string, start: Db, class_: Class, client: string, n: nat,
      i: nat)
    requires Trace(keys, start, Stragglers(class_, client, n)) && i <= n
    ensures AllOnTime(Stragglers(class_, client, n), i)
    ensures var requests := Stragglers(class_, client, n);
            PassedDuring(Verdicts(keys, start, requests), requests, i, class_, client, WINDOW_MS * n) == i
  {
    if i > 0 {
      var requests := Stragglers(class_, client, n);
      StragglersPass(keys, start, class_, client, n, i - 1);
      assert requests[i - 1] == Request(WINDOW_MS * (i - 1), WINDOW_MS * n, class_, client);
      StragglerIsAdmitted(keys, start, class_, client, n, i - 1);
    }
  }

  /** Being on time alone bounds nothing of the kind: any number of requests that stopped between
      their clock readings and their scripts can be admitted at one and the same instant. */
  lemma OnTimeAloneBoundsNoInstant(keys: Bucket -> string, start: Db, class_: Class, client: string, n: nat)
    requires Injective(keys) && forall b: Bucket :: keys(b) !in start.entries
    ensures var requests := Stragglers(class_, client, n);
            && Trace(keys, start, requests) && AllOnTime(requests, n)
            && PassedDuring(Verdicts(keys, start, requests), requests, n, class_, client, WINDOW_MS * n) == n
  {
    StragglersPass(keys, start, class_, client, n, n);
  }

  /** A full quota of requests of one minute and, once their counter has expired, one more. */
  function OneTooMany(class_: Class, client: string, clock: nat): seq<Request> {
    seq(class_.Quota() + 1,
        (i: nat) => Request(clock, if i < class_.Quota() then clock else clock + WINDOW_MS, class_, client))
  }

  lemma {:induction false} OneTooManyArrive(class_: Class, client: string, clock: nat, n: nat, b: Bucket)
    requires b == Request(clock, 0, class_, client).BucketOf() && n <= class_.Quota() + 1
    ensures var requests := OneTooMany(class_, client, clock);
            && Arrived(requests, n, b) == n
            && (n > 0 ==> FirstAt(requests, n, b) == clock)
            && AllOnTime(requests, if n <= class_.Quota() then n else class_.Quota())
  {
    if n > 0 {
      OneTooManyArrive(class_, client, clock, n - 1, b);
    }
  }

  lemma TheLateOneIsAdmitted(keys: Bucket -> string, start: Db, class_: Class, client: string, clock: nat)
    requires Trace(keys, start, OneTooMany(class_, client, clock))
    ensures var requests := OneTooMany(class_, client, clock);
            && AllOnTime(requests, class_.Quota()) && !OnTime(requests, class_.Quota())
            && Admitted(keys, start, requests, class_.Quota())
  {
    var requests, q := OneTooMany(class_, client, clock), class_.Quota();
    assert requests[q].BucketOf() == Request(clock, 0, class_, client).BucketOf();
    OneTooManyArrive(class_, client, clock, q, requests[q].BucketOf());
    CountIsExactIfAndOnlyIfOnTime(keys, start, requests, q);
  }

  /** And a single late request is enough for the quota of its minute to be exceeded. */
  lemma OneLateRequestExceedsTheQuota(keys: Bucket -> string, start: Db, class_: Class, client: string, clock: nat)
    requires Injective(keys) && forall b: Bucket :: keys(b) !in start.entries
    ensures var requests := OneTooMany(class_, client, clock);
            && Trace(keys, start, requests) && !OnTime(requests, class_.Quota())
            && Passed(Verdicts(keys, start, requests), requests, |requests|, requests[0].BucketOf())
               == class_.Quota() + 1
  {
    var requests, q := OneTooMany(class_, client, clock), class_.Quota();
    var b := requests[0].BucketOf();
    OneTooManyArrive(class_, client, clock, q, b);
    TheLateOneIsAdmitted(keys, start, class_, client, clock);
    ExactlyTheQuotaPasses(keys, start, requests, q, b);
    assert requests[q].BucketOf() == b;
  }

  /** The reported reset time always lies in a later minute than the request, however long after
      the clock reading it is computed. */
  lemma ResetIsInANewWindow(r: Request, reported: nat)
    requires r.clock <= reported
    ensures r.Window() < r.(clock := 1000 * (Seconds(reported) + WINDOW_SECONDS)).Window()
  {
  }
}
