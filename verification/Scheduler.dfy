/** Replicated ingestion jobs. Any number of replicas run the same guarded loop over one lock
    that has no owner: a slot is taken with SET NX for a 900 s lease, and after the job the lock
    is overwritten, whoever holds it, to keep every replica away for the next delay.

    Runs interleave the replicas with crashes, restarts, pauses of any length, lost replies and
    an unreachable lock store. */
module Scheduler {
  import opened Store
  import opened Powers
  import opened Backoff

  const LEASE_SECONDS := 900
  const LEASE_MS := 1000 * LEASE_SECONDS
  const SPACING_MS := 48000

  function AfterAcquire(db: Db, lockKey: string, outcome: Outcome): Db {
    if outcome.NotReached? then db else db.SetNxEx(lockKey, Text("1"), LEASE_SECONDS)
  }

  function HoldSeconds(delay: int): int {
    if delay / 1000 >= 1 then delay / 1000 else 1
  }

  function AfterHold(db: Db, lockKey: string, delay: int, outcome: Outcome): Db {
    if outcome.NotReached? then db else db.SetEx(lockKey, Text("1"), HoldSeconds(delay))
  }

  /** Zero when the slot is taken, otherwise the seconds to wait before the next try: what is left
      of the lock but at least five, or a minute if the store fails at either command. */
  method AcquireSlot(v: Valkey, lockKey: string, outcome: Outcome, ttlAnswered: bool) returns (wait: int)
    modifies v
    ensures v.View() == AfterAcquire(old(v.View()), lockKey, outcome)
    ensures if outcome.NotReached? || old(v.View()).Live(lockKey) then v.View() == old(v.View())
            else v.View().LivesFor(lockKey, 900000) && old(v.View()).AgreesOutside(v.View(), {lockKey})
    ensures wait == 0 <==> outcome.Replied? && !old(v.View()).Live(lockKey)
    ensures wait != 0 ==>
              var ttl := old(v.View()).Ttl(lockKey);
              wait == if !outcome.Replied? || !ttlAnswered then FIRST_RETRY_SECONDS else if ttl <= 5 then 5 else ttl
    ensures outcome.Replied? && ttlAnswered ==>
              forall ms :: old(v.View()).LivesFor(lockKey, ms) ==>
                if ms < 4500 then wait == 5 else -500 <= 1000 * wait - ms <= 500 || wait == 5
  {
    if outcome.NotReached? {
      return FIRST_RETRY_SECONDS;
    }
    var won := v.SetNxEx(lockKey, Text("1"), LEASE_SECONDS);
    if outcome.ReplyLost? {
      return FIRST_RETRY_SECONDS;
    }
    if won {
      return 0;
    }
    if !ttlAnswered {
      return FIRST_RETRY_SECONDS;
    }
    var ttl := v.Ttl(lockKey);
    wait := if ttl >= 5 then ttl else 5;
  }

  /** The overwrite happens or not; the replica carries on in either case. A hold that happens lasts for
      the whole seconds of the delay, but at least for one. */
  method HoldSlot(v: Valkey, lockKey: string, delay: int, outcome: Outcome)
    modifies v
    ensures v.View() == AfterHold(old(v.View()), lockKey, delay, outcome)
    ensures outcome.NotReached? ==> v.View() == old(v.View())
    ensures !outcome.NotReached? ==>
              && v.View().LivesFor(lockKey, if delay >= 1000 then 1000 * (delay / 1000) else 1000)
              && old(v.View()).AgreesOutside(v.View(), {lockKey})
  {
    if !outcome.NotReached? {
      v.SetEx(lockKey, Text("1"), HoldSeconds(delay));
    }
  }

  /** Where a replica stands in its loop. `Settling` lies between the end of the job and the
      hold: the health write and the event after a failure. `held` says that the replica's own
      hold reached the store. */
  datatype Phase =
    | Ready
    | Running(acquired: Time)
    | Settling(acquired: Time, delay: int)
    | Held(delay: int, held: bool)
    | Asleep(until: Time, held: bool)
    | Down
  {
    predicate InRound() {
      Running? || Settling?
    }
  }

  /** `streakStart` is when the slot of the first failure of the present streak was taken. */
  datatype Replica = Replica(phase: Phase, failures: nat, streakStart: Time)

  datatype State = State(
    lockKey: string,
    interval: nat,
    db: Db,
    replicas: map<nat, Replica>,
    acquisitions: seq<Time>)

  datatype Event =
    | Tick(ms: nat)
    | OtherTraffic(db: Db)
    | TryAcquire(r: nat, outcome: Outcome, wait: nat)
    | JobReturns(r: nat)
    | JobRaises(r: nat, delay: int)
    | Hold(r: nat, outcome: Outcome)
    | StartSleep(r: nat)
    | Wake(r: nat)
    | Crash(r: nat)
    | Restart(r: nat)

  predicate Enabled(s: State, e: Event) {
    match e
    case Tick(_) => true
    case OtherTraffic(db) => s.db.AgreesOn(db, {s.lockKey})
    case TryAcquire(r, _, wait) => r in s.replicas && s.replicas[r].phase.Ready? && wait >= 5
    case JobReturns(r) => r in s.replicas && s.replicas[r].phase.Running?
    case JobRaises(r, delay) =>
      && r in s.replicas && s.replicas[r].phase.Running?
      && RetryDelay(delay, s.replicas[r].failures + 1, s.interval)
    case Hold(r, _) => r in s.replicas && s.replicas[r].phase.Settling?
    case StartSleep(r) => r in s.replicas && s.replicas[r].phase.Held?
    case Wake(r) => r in s.replicas && s.replicas[r].phase.Asleep? && s.replicas[r].phase.until <= s.db.now
    case Crash(r) => r in s.replicas
    case Restart(r) => r in s.replicas && s.replicas[r].phase.Down?
  }

  function Put(s: State, r: nat, replica: Replica): State {
    s.(replicas := s.replicas[r := replica])
  }

  function Goto(s: State, r: nat, phase: Phase): State
    requires r in s.replicas
  {
    Put(s, r, s.replicas[r].(phase := phase))
  }

  /** A try whose reply is lost may leave the lock taken by nobody; it counts as an acquisition. */
  function Tried(s: State, r: nat, outcome: Outcome, wait: nat): State
    requires r in s.replicas
  {
    var won := !outcome.NotReached? && !s.db.Live(s.lockKey);
    var s1 := s.(
      db := AfterAcquire(s.db, s.lockKey, outcome),
      acquisitions := if won then s.acquisitions + [s.db.now] else s.acquisitions);
    if outcome.Replied? && won then Goto(s1, r, Running(s.db.now))
    else Goto(s1, r, Asleep(s.db.now + 1000 * (if outcome.Replied? then wait else FIRST_RETRY_SECONDS), false))
  }

  function Do(s: State, e: Event): State
    requires Enabled(s, e)
  {
    match e
    case Tick(ms) => s.(db := s.db.Advance(ms))
    case OtherTraffic(db) => s.(db := db)
    case TryAcquire(r, outcome, wait) => Tried(s, r, outcome, wait)
    case JobReturns(r) =>
      Put(s, r, Replica(Settling(s.replicas[r].phase.acquired, 1000 * s.interval), 0, s.replicas[r].streakStart))
    case JobRaises(r, delay) =>
      var was := s.replicas[r];
      Put(s, r, Replica(Settling(was.phase.acquired, delay), was.failures + 1,
                        if was.failures == 0 then was.phase.acquired else was.streakStart))
    case Hold(r, outcome) =>
      var delay := s.replicas[r].phase.delay;
      Goto(s.(db := AfterHold(s.db, s.lockKey, delay, outcome)), r, Held(delay, !outcome.NotReached?))
    case StartSleep(r) =>
      Goto(s, r, Asleep(s.db.now + s.replicas[r].phase.delay, s.replicas[r].phase.held))
    case Wake(r) => Goto(s, r, Ready)
    case Crash(r) => Goto(s, r, Down)
    case Restart(r) => Put(s, r, Replica(Ready, 0, s.db.now))
  }

  predicate Run(s: State, events: seq<Event>)
    decreases |events|
  {
    events == [] || (Enabled(s, events[0]) && Run(Do(s, events[0]), events[1..]))
  }

  function Exec(s: State, events: seq<Event>): State
    requires Run(s, events)
    decreases |events|
  {
    if events == [] then s else Exec(Do(s, events[0]), events[1..])
  }

  /** The interval of every job is at least a minute. */
  predicate Init(s: State) {
    && s.interval >= FIRST_RETRY_SECONDS
    && s.lockKey !in s.db.entries && s.acquisitions == []
    && forall r <- s.replicas :: s.replicas[r] == Replica(Ready, 0, s.db.now)
  }

  // Spacing of the acquisitions, whatever the length of the rounds.

  predicate Spaced(times: seq<Time>) {
    forall i, j | 0 <= i < j < |times| :: times[i] + SPACING_MS <= times[j]
  }

  ghost predicate SpacingInv(s: State) {
    && s.interval >= FIRST_RETRY_SECONDS
    && Spaced(s.acquisitions)
    && (s.acquisitions != [] ==>
          var last := s.acquisitions[|s.acquisitions| - 1];
          && last <= s.db.now
          && s.lockKey in s.db.entries && s.db.entries[s.lockKey].expiry.Some?
          && last + SPACING_MS <= s.db.entries[s.lockKey].expiry.value)
    && forall r <- s.replicas :: s.replicas[r].phase.Settling? ==> SPACING_MS <= s.replicas[r].phase.delay
  }

  lemma SpacingStep(s: State, e: Event)
    requires SpacingInv(s) && Enabled(s, e)
    ensures SpacingInv(Do(s, e))
  {
    if e.JobRaises? {
      BaseGrowsWithinBounds(1, s.replicas[e.r].failures + 1, s.interval);
    }
  }

  lemma {:induction false} SpacingRun(s: State, events: seq<Event>)
    requires SpacingInv(s) && Run(s, events)
    ensures SpacingInv(Exec(s, events))
    decreases |events|
  {
    if events != [] {
      SpacingStep(s, events[0]);
      SpacingRun(Do(s, events[0]), events[1..]);
    }
  }

  function CountWithin(times: seq<Time>, lo: Time, hi: Time): nat {
    if times == [] then 0
    else
      var last := times[|times| - 1];
      CountWithin(times[..|times| - 1], lo, hi) + (if lo <= last <= hi then 1 else 0)
  }

  lemma {:induction false} CountSpaced(times: seq<Time>, lo: Time, hi: Time)
    requires Spaced(times)
    ensures CountWithin(times, lo, hi) <= if lo <= hi then (hi - lo) / SPACING_MS + 1 else 0
  {
    if times != [] {
      var n := |times| - 1;
      var last := times[n];
      CountSpaced(times[..n], lo, hi);
      if lo <= last <= hi {
        CountSpaced(times[..n], lo, last - SPACING_MS);
        CountUpTo(times[..n], lo, hi, last - SPACING_MS);
      }
    }
  }

  lemma {:induction false} CountUpTo(times: seq<Time>, lo: Time, hi: Time, bound: Time)
    requires bound <= hi && forall i | 0 <= i < |times| :: times[i] <= bound
    ensures CountWithin(times, lo, hi) == CountWithin(times, lo, bound)
  {
    if times != [] {
      CountUpTo(times[..|times| - 1], lo, hi, bound);
    }
  }

  /** Over any run, whatever succeeds, fails, crashes, stalls or is swallowed, any two
      acquisitions of a job by any replicas are at least 48 s apart, and a window of length T
      holds at most T / 48 s + 1 of them. */
  lemma AcquisitionsAreSpaced(start: State, events: seq<Event>, lo: Time, length: nat)
    requires Init(start) && Run(start, events)
    ensures var times := Exec(start, events).acquisitions;
            && (forall i, j | 0 <= i < j < |times| :: times[i] + 48000 <= times[j])
            && CountWithin(times, lo, lo + length) <= length / 48000 + 1
  {
    SpacingRun(start, events);
    CountSpaced(Exec(start, events).acquisitions, lo, lo + length);
  }

  // Mutual exclusion, which rests on short rounds.

  /** Every round in progress, from taking the slot up to the hold, is younger than the lease. */
  predicate RoundsShort(s: State) {
    forall r <- s.replicas | s.replicas[r].phase.InRound() :: s.db.now < s.replicas[r].phase.acquired + LEASE_MS
  }

  predicate ShortRun(s: State, events: seq<Event>)
    decreases |events|
  {
    RoundsShort(s) &&
    (events == [] || (Enabled(s, events[0]) && ShortRun(Do(s, events[0]), events[1..])))
  }

  predicate Exclusive(s: State) {
    forall a <- s.replicas, b <- s.replicas | s.replicas[a].phase.InRound() && s.replicas[b].phase.InRound() :: a == b
  }

  ghost predicate MutexInv(s: State) {
    && Exclusive(s)
    && forall r <- s.replicas | s.replicas[r].phase.InRound() ::
         s.lockKey in s.db.entries && s.db.entries[s.lockKey].expiry == Some(s.replicas[r].phase.acquired + LEASE_MS)
  }

  lemma MutexStep(s: State, e: Event)
    requires MutexInv(s) && RoundsShort(s) && Enabled(s, e)
    ensures MutexInv(Do(s, e))
  {
  }

  lemma {:induction false} MutexRun(s: State, events: seq<Event>)
    requires MutexInv(s) && ShortRun(s, events)
    ensures Run(s, events) && MutexInv(Exec(s, events))
    decreases |events|
  {
    if events != [] {
      MutexStep(s, events[0]);
      MutexRun(Do(s, events[0]), events[1..]);
    }
  }

  /** If every round stays shorter than its 900 s lease, no two replicas are ever inside the same
      job, although nothing ties the lock to its owner. */
  lemma MutualExclusion(start: State, events: seq<Event>)
    requires Init(start) && ShortRun(start, events)
    ensures Run(start, events) && Exclusive(Exec(start, events))
  {
    MutexRun(start, events);
  }

  /** The bound is exact: in the first moment in which a round is as old as the lease, any other
      replica that tries gets into the job as well. */
  lemma LongRoundBreaksExclusion(s: State, a: nat, b: nat)
    requires MutexInv(s) && a in s.replicas && s.replicas[a].phase.InRound()
    requires s.replicas[a].phase.acquired + LEASE_MS <= s.db.now
    requires b in s.replicas && s.replicas[b].phase.Ready?
    ensures Enabled(s, TryAcquire(b, Replied, 5)) && !Exclusive(Do(s, TryAcquire(b, Replied, 5)))
  {
    var s' := Do(s, TryAcquire(b, Replied, 5));
    assert s'.replicas[a].phase.InRound() && s'.replicas[b].phase.InRound();
  }

  /** From the start: while one replica is in its round, another tries after `ms`. The two exclude
      each other if and only if the lease has not yet passed. */
  lemma RoundsExcludeExactlyWithinTheLease(start: State, a: nat, b: nat, ms: nat)
    requires Init(start) && a in start.replicas && b in start.replicas && a != b
    ensures var events := [TryAcquire(a, Replied, 5), Tick(ms), TryAcquire(b, Replied, 5)];
            Run(start, events) && (Exclusive(Exec(start, events)) <==> ms < LEASE_MS)
  {
    var events := [TryAcquire(a, Replied, 5), Tick(ms), TryAcquire(b, Replied, 5)];
    var s1 := Do(start, TryAcquire(a, Replied, 5));
    var s2 := Do(s1, Tick(ms));
    var s3 := Do(s2, TryAcquire(b, Replied, 5));
    assert Run(s3, events[3..]) && Exec(s3, events[3..]) == s3;
    assert Run(s2, events[2..]) && Exec(s2, events[2..]) == s3;
    assert Run(s1, events[1..]) && Exec(s1, events[1..]) == s3;
    MutexStep(start, TryAcquire(a, Replied, 5));
    MutexStep(s1, Tick(ms));
    if ms < LEASE_MS {
      MutexStep(s2, TryAcquire(b, Replied, 5));
    } else {
      LongRoundBreaksExclusion(s2, a, b);
    }
  }

  // What a hold is worth.

  /** Until `until` the lock is held and nobody is in a round, unless there have been acquisitions
      beyond the first `n`, all of them later. */
  ghost predicate HeldUntil(s: State, until: Time, n: nat) {
    && n <= |s.acquisitions|
    && (forall i | n <= i < |s.acquisitions| :: until <= s.acquisitions[i])
    && (n < |s.acquisitions| ==> until <= s.db.now)
    && (n == |s.acquisitions| ==>
          && s.lockKey in s.db.entries && s.db.entries[s.lockKey].expiry == Some(until)
          && forall r <- s.replicas :: !s.replicas[r].phase.InRound())
  }

  lemma HeldStep(s: State, e: Event, until: Time, n: nat)
    requires HeldUntil(s, until, n) && Enabled(s, e)
    ensures HeldUntil(Do(s, e), until, n)
  {
  }

  lemma {:induction false} HeldRun(s: State, events: seq<Event>, until: Time, n: nat)
    requires HeldUntil(s, until, n) && Run(s, events)
    ensures HeldUntil(Exec(s, events), until, n) && Exec(s, events).lockKey == s.lockKey
    decreases |events|
  {
    if events != [] {
      HeldStep(s, events[0], until, n);
      HeldRun(Do(s, events[0]), events[1..], until, n);
    }
  }

  function HeldFor(delay: int): int {
    if delay >= 1000 then 1000 * (delay / 1000) else 1000
  }

  lemma HoldStarts(s: State, r: nat, outcome: Outcome)
    requires MutexInv(s) && Enabled(s, Hold(r, outcome)) && !outcome.NotReached?
    ensures HeldUntil(Do(s, Hold(r, outcome)), s.db.now + HeldFor(s.replicas[r].phase.delay), |s.acquisitions|)
  {
    var held := Do(s, Hold(r, outcome));
    assert held.replicas[r].phase.Held?;
  }

  /** The delay that a replica is about to hold the slot for: the interval after a success, and the
      retry delay of its failures in a row otherwise. */
  ghost predicate DelaysOk(s: State) {
    forall r <- s.replicas | s.replicas[r].phase.Settling? ::
      var delay, failures := s.replicas[r].phase.delay, s.replicas[r].failures;
      if failures == 0 then delay == 1000 * s.interval else RetryDelay(delay, failures, s.interval)
  }

  lemma {:induction false} DelaysRun(s: State, events: seq<Event>)
    requires DelaysOk(s) && Run(s, events)
    ensures DelaysOk(Exec(s, events)) && Exec(s, events).interval == s.interval
    decreases |events|
  {
    if events != [] {
      DelaysStep(s, events[0]);
      DelaysRun(Do(s, events[0]), events[1..]);
    }
  }

  lemma DelaysStep(s: State, e: Event)
    requires DelaysOk(s) && Enabled(s, e)
    ensures DelaysOk(Do(s, e))
  {
  }

  /** A hold that reaches the store after rounds shorter than the lease keeps every replica out of the
      job for the whole seconds of its delay, but at least for one, whatever happens afterwards; and
      unless somebody takes it then, the slot is free from that moment on. After a success it is the
      interval of the job that passes before the next acquisition. */
  lemma HoldKeepsEveryoneOut(start: State, before: seq<Event>, r: nat, outcome: Outcome, after: seq<Event>)
    requires Init(start) && ShortRun(start, before) && Run(start, before) && !outcome.NotReached?
    requires Enabled(Exec(start, before), Hold(r, outcome)) && Run(Do(Exec(start, before), Hold(r, outcome)), after)
    ensures var s := Exec(start, before);
            var later := Exec(Do(s, Hold(r, outcome)), after);
            var delay := s.replicas[r].phase.delay;
            var until := s.db.now + if delay >= 1000 then 1000 * (delay / 1000) else 1000;
            && |s.acquisitions| <= |later.acquisitions|
            && (forall i | |s.acquisitions| <= i < |later.acquisitions| :: until <= later.acquisitions[i])
            && (|later.acquisitions| == |s.acquisitions| ==> (later.db.Live(s.lockKey) <==> later.db.now < until))
            && (s.replicas[r].failures == 0 ==> until == s.db.now + 1000 * start.interval)
  {
    MutexRun(start, before);
    DelaysRun(start, before);
    var s := Exec(start, before);
    HoldStarts(s, r, outcome);
    HeldRun(Do(s, Hold(r, outcome)), after, s.db.now + HeldFor(s.replicas[r].phase.delay), |s.acquisitions|);
  }

  /** How a round ends: a success settles for the interval and forgets the failures, a failure counts
      one more and settles for its retry delay; the first one in a row for 48 to 72 s. */
  lemma RoundsSettle(s: State, r: nat, delay: int)
    requires r in s.replicas && s.replicas[r].phase.Running? && s.interval >= FIRST_RETRY_SECONDS
    ensures Enabled(s, JobReturns(r))
    ensures var settled := Do(s, JobReturns(r)).replicas[r];
            settled.failures == 0 && settled.phase.Settling? && settled.phase.delay == 1000 * s.interval
    ensures s.replicas[r].failures == 0 ==> (Enabled(s, JobRaises(r, delay)) <==> 48000 <= delay <= 72000)
    ensures Enabled(s, JobRaises(r, delay)) ==>
              var settled := Do(s, JobRaises(r, delay)).replicas[r];
              && settled.failures == s.replicas[r].failures + 1
              && settled.phase.Settling? && settled.phase.delay == delay
              && RetryDelay(delay, settled.failures, s.interval)
  {
    RetryDelayRange(delay, 1, s.interval);
  }

  /** The delay is also how long the replica sleeps, to the millisecond; one that is refused sleeps for
      the wait it is told, and a minute if the store did not answer. */
  lemma SleepsAreExact(s: State, r: nat, outcome: Outcome, wait: nat, ms: nat)
    requires r in s.replicas
    ensures s.replicas[r].phase.Held? ==>
              var asleep := Do(s, StartSleep(r));
              Enabled(Do(asleep, Tick(ms)), Wake(r)) <==> s.replicas[r].phase.delay <= ms
    ensures Enabled(s, TryAcquire(r, outcome, wait)) && (!outcome.Replied? || s.db.Live(s.lockKey)) ==>
              var asleep := Do(s, TryAcquire(r, outcome, wait));
              Enabled(Do(asleep, Tick(ms)), Wake(r)) <==> (if outcome.Replied? then 1000 * wait else 60000) <= ms
  {
  }

  // The time that failures in a row take, and waking up.

  /** The instant before which a replica with this many failures in a row cannot try again. */
  function Earliest(s: State, replica: Replica): Time {
    replica.streakStart + 800 * SumBases(replica.failures, s.interval)
  }

  ghost predicate StreakInv(s: State) {
    forall r <- s.replicas :: StreakOk(s, s.replicas[r])
  }

  ghost predicate StreakOk(s: State, replica: Replica) {
    && replica.streakStart <= s.db.now
    && match replica.phase
       case Ready => Earliest(s, replica) <= s.db.now
       case Running(acquired) => Earliest(s, replica) <= s.db.now && acquired <= s.db.now
       case Settling(acquired, delay) => acquired <= s.db.now && 0 <= delay && Earliest(s, replica) <= s.db.now + delay
       case Held(delay, _) => 0 <= delay && Earliest(s, replica) <= s.db.now + delay
       case Asleep(until, _) => Earliest(s, replica) <= until
       case Down => true
  }

  lemma OneReplicaMoves(s: State, r: nat, replica: Replica)
    requires StreakInv(s) && StreakOk(s, replica)
    ensures StreakInv(Put(s, r, replica))
  {
  }

  lemma FailureAddsItsDelay(s: State, r: nat, delay: int)
    requires StreakInv(s) && Enabled(s, JobRaises(r, delay))
    ensures StreakOk(s, Do(s, JobRaises(r, delay)).replicas[r])
  {
    var was := s.replicas[r];
    assert StreakOk(s, was);
    BaseGrowsWithinBounds(1, was.failures + 1, s.interval);
    assert SumBases(was.failures + 1, s.interval)
           == SumBases(was.failures, s.interval) + Base(was.failures + 1, s.interval);
  }

  lemma MoveKeepsStreak(s: State, e: Event)
    requires StreakInv(s) && Enabled(s, e) && !e.Tick? && !e.OtherTraffic? && !e.JobRaises?
    ensures StreakOk(s, Do(s, e).replicas[e.r])
  {
    assert StreakOk(s, s.replicas[e.r]);
  }

  lemma StreakStep(s: State, e: Event)
    requires StreakInv(s) && Enabled(s, e)
    ensures StreakInv(Do(s, e))
  {
    match e {
      case Tick(_) =>
      case OtherTraffic(_) =>
      case JobRaises(r, delay) =>
        FailureAddsItsDelay(s, r, delay);
        OneReplicaMoves(s, r, Do(s, e).replicas[r]);
      case _ =>
        MoveKeepsStreak(s, e);
        OneReplicaMoves(s.(db := Do(s, e).db, acquisitions := Do(s, e).acquisitions), e.r, Do(s, e).replicas[e.r]);
    }
  }

  lemma {:induction false} StreakRun(s: State, events: seq<Event>)
    requires StreakInv(s) && Run(s, events)
    ensures StreakInv(Exec(s, events)) && Exec(s, events).interval == s.interval
    decreases |events|
  {
    if events != [] {
      StreakStep(s, events[0]);
      StreakRun(Do(s, events[0]), events[1..]);
    }
  }

  /** A replica that is ready to try again after k failures in a row has taken at least 0.8 times
      the sum of the first k base delays, which is 48 * (2^k - 1) seconds while none is capped. */
  lemma FailuresTakeTime(start: State, events: seq<Event>, r: nat)
    requires Init(start) && Run(start, events)
    requires r in Exec(start, events).replicas && Exec(start, events).replicas[r].phase.Ready?
    ensures var s := Exec(start, events);
            var k := s.replicas[r].failures;
            && 800 * SumBases(k, start.interval) <= s.db.now - s.replicas[r].streakStart
            && (1 <= k <= 11 && 60 * Pow2(k - 1) <= start.interval ==>
                  48000 * (Pow2(k) - 1) <= s.db.now - s.replicas[r].streakStart)
  {
    StreakRun(start, events);
    var s := Exec(start, events);
    var k := s.replicas[r].failures;
    assert StreakOk(s, s.replicas[r]);
    if 1 <= k <= 11 && 60 * Pow2(k - 1) <= start.interval {
      SumWhileUncapped(k, start.interval);
    }
  }

  /** For a lone replica: its own hold runs out no later than its own sleep. */
  ghost predicate LoneInv(s: State, r: nat) {
    && s.replicas.Keys == {r}
    && var phase := s.replicas[r].phase;
       var expiry := if s.lockKey in s.db.entries then s.db.entries[s.lockKey].expiry else None;
       && (phase.Held? && phase.held ==> expiry.Some? && expiry.value <= s.db.now + phase.delay)
       && (phase.Asleep? && phase.held ==> expiry.Some? && expiry.value <= phase.until)
  }

  lemma {:induction false} LoneRun(s: State, events: seq<Event>, r: nat)
    requires SpacingInv(s) && LoneInv(s, r) && Run(s, events)
    ensures LoneInv(Exec(s, events), r)
    decreases |events|
  {
    if events != [] {
      SpacingStep(s, events[0]);
      LoneStep(s, events[0], r);
      LoneRun(Do(s, events[0]), events[1..], r);
    }
  }

  lemma LoneStep(s: State, e: Event, r: nat)
    requires SpacingInv(s) && LoneInv(s, r) && Enabled(s, e)
    ensures LoneInv(Do(s, e), r)
  {
  }

  /** A lone replica whose hold reached the store never finds its own lock in the way: when its
      sleep is over the lock has expired and the next try takes the slot. */
  lemma LoneReplicaWakesToAFreeSlot(start: State, events: seq<Event>, r: nat)
    requires Init(start) && start.replicas.Keys == {r} && Run(start, events)
    requires Enabled(Exec(start, events), Wake(r)) && Exec(start, events).replicas[r].phase.held
    ensures var s := Do(Exec(start, events), Wake(r));
            !s.db.Live(s.lockKey) && Do(s, TryAcquire(r, Replied, 5)).replicas[r].phase.Running?
  {
    LoneRun(start, events, r);
  }
}
