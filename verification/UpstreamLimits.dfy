/** How exact the guarantees of the upstream guard are: runs from an empty store in which a caller who
    is a millisecond too late exceeds the budget, and in which timely callers use all that the bound
    for sliding minutes leaves them. */
module UpstreamLimits {
  import opened Store
  import opened Sets
  import opened Upstream

  /** A run leads from `s` to `later` in which no call under way is ever more than `delay` late. */
  ghost predicate Reaches(s: State, later: State, delay: nat) {
    exists events :: TimelyRun(s, events, delay) && Run(s, events) && Exec(s, events) == later
  }

  lemma ReachesByStep(s: State, e: Event, delay: nat)
    requires Enabled(s, e) && Within(s, delay) && Within(Do(s, e), delay)
    ensures Reaches(s, Do(s, e), delay)
  {
    var next := Do(s, e);
    assert TimelyRun(next, [], delay) && Run(next, []) && Exec(next, []) == next;
    assert [e][1..] == [];
    assert TimelyRun(s, [e], delay) && Run(s, [e]) && Exec(s, [e]) == next;
  }

  lemma {:induction false} RunsConcatenate(s: State, first: seq<Event>, second: seq<Event>, delay: nat)
    requires TimelyRun(s, first, delay) && Run(s, first)
    requires TimelyRun(Exec(s, first), second, delay) && Run(Exec(s, first), second)
    ensures TimelyRun(s, first + second, delay) && Run(s, first + second)
    ensures Exec(s, first + second) == Exec(Exec(s, first), second)
    decreases |first|
  {
    if first == [] {
      assert first + second == second;
    } else {
      RunsConcatenate(Do(s, first[0]), first[1..], second, delay);
      assert (first + second)[1..] == first[1..] + second;
    }
  }

  lemma ReachesTransitively(s: State, middle: State, later: State, delay: nat)
    requires Reaches(s, middle, delay) && Reaches(middle, later, delay)
    ensures Reaches(s, later, delay)
  {
    var first :| TimelyRun(s, first, delay) && Run(s, first) && Exec(s, first) == middle;
    var second :| TimelyRun(middle, second, delay) && Run(middle, second) && Exec(middle, second) == later;
    RunsConcatenate(s, first, second, delay);
  }

  /** No step but a tick makes a call late. */
  lemma WithinStays(s: State, e: Event, delay: nat)
    requires Within(s, delay) && Enabled(s, e) && !e.Tick?
    ensures Within(Do(s, e), delay)
  {
  }

  lemma ReachesOneStepFurther(s: State, middle: State, e: Event, delay: nat)
    requires Reaches(s, middle, delay) && Within(middle, delay) && Enabled(middle, e)
    requires !e.Tick? || Within(Do(middle, e), delay)
    ensures Reaches(s, Do(middle, e), delay) && Within(Do(middle, e), delay)
  {
    if !e.Tick? {
      WithinStays(middle, e, delay);
    }
    ReachesByStep(middle, e, delay);
    ReachesTransitively(s, middle, Do(middle, e), delay);
  }

  lemma ReachesItself(s: State, delay: nat)
    requires Within(s, delay)
    ensures Reaches(s, s, delay)
  {
    assert TimelyRun(s, [], delay) && Run(s, []) && Exec(s, []) == s;
  }

  // One call.

  lemma OthersKeepTheirCount(db: Db, key: string, ttl: int, other: string)
    requires key != other
    ensures CountAndArm(db, key, ttl).Count(other) == db.Count(other)
  {
  }

  lemma HoursKeepTheirCount(db: Db, minute: Slot, hour: Slot)
    requires minute != hour
    ensures Guarded(db, minute).Count(hour.Key()) == db.Count(hour.Key())
  {
    KeysAreInjective(minute, hour);
    OthersKeepTheirCount(db, minute.Key(), minute.Ttl(), hour.Key());
  }

  function OneIssued(issued: map<Slot, nat>, slot: Slot): map<Slot, nat> {
    issued[slot := (if slot in issued then issued[slot] else 0) + 1]
  }

  lemma CallArrives(s: State, c: nat, delay: nat) returns (later: State)
    requires c !in s.calls && Within(s, delay)
    ensures Reaches(s, later, delay) && Within(later, delay) && later == s.(calls := later.calls)
    ensures c in later.calls && later.calls == s.calls[c := later.calls[c]]
    ensures later.calls[c].stage.CountingMinute? && later.calls[c].readAt == s.db.now
    ensures later.calls[c].minute == Seconds(s.db.now) / 60 && later.calls[c].hour == Seconds(s.db.now) / 3600
  {
    var s1 := Do(s, Start(c));
    later := Do(s1, ReadHour(c));
    ReachesItself(s, delay);
    ReachesOneStepFurther(s, s, Start(c), delay);
    ReachesOneStepFurther(s, s1, ReadHour(c), delay);
  }

  ghost function MinuteGuarded(s: State, c: nat): State
    requires Enabled(s, CountMinute(c))
  {
    var counted := Do(s, CountMinute(c));
    if counted.calls[c].stage.ArmingMinute? then Do(counted, ArmMinute(c)) else counted
  }

  ghost function HourGuarded(s: State, c: nat): State
    requires Enabled(s, CountHour(c))
  {
    var counted := Do(s, CountHour(c));
    if counted.calls[c].stage.ArmingHour? then Do(counted, ArmHour(c)) else counted
  }

  lemma AfterMinuteGuard(s: State, c: nat)
    requires Enabled(s, CountMinute(c))
    ensures var slot, later := Minute(s.calls[c].minute), MinuteGuarded(s, c);
            && later.db == Guarded(s.db, slot) && later.issued == OneIssued(s.issued, slot)
            && later.calls ==
               s.calls[c := s.calls[c].(minuteCount := s.db.Count(slot.Key()) + 1, stage := CountingHour)]
  {
  }

  lemma AfterHourGuard(s: State, c: nat)
    requires Enabled(s, CountHour(c))
    ensures var slot, later := Hour(s.calls[c].hour), HourGuarded(s, c);
            && later.db == Guarded(s.db, slot) && later.issued == OneIssued(s.issued, slot)
            && later.calls == s.calls[c := s.calls[c].(hourCount := s.db.Count(slot.Key()) + 1, stage := Deciding)]
  {
  }

  lemma GuardsAreReached(s: State, c: nat, delay: nat)
    requires Within(s, delay)
    ensures Enabled(s, CountMinute(c)) ==> Reaches(s, MinuteGuarded(s, c), delay) && Within(MinuteGuarded(s, c), delay)
    ensures Enabled(s, CountHour(c)) ==> Reaches(s, HourGuarded(s, c), delay) && Within(HourGuarded(s, c), delay)
  {
    ReachesItself(s, delay);
    if Enabled(s, CountMinute(c)) {
      ReachesOneStepFurther(s, s, CountMinute(c), delay);
      var counted := Do(s, CountMinute(c));
      if counted.calls[c].stage.ArmingMinute? {
        ReachesOneStepFurther(s, counted, ArmMinute(c), delay);
      }
    }
    if Enabled(s, CountHour(c)) {
      ReachesOneStepFurther(s, s, CountHour(c), delay);
      var counted := Do(s, CountHour(c));
      if counted.calls[c].stage.ArmingHour? {
        ReachesOneStepFurther(s, counted, ArmHour(c), delay);
      }
    }
  }

  lemma PassMinuteGuard(s: State, c: nat, delay: nat) returns (later: State)
    requires Enabled(s, CountMinute(c)) && Within(s, delay)
    ensures Reaches(s, later, delay) && Within(later, delay)
    ensures var slot := Minute(s.calls[c].minute);
            && later.db == Guarded(s.db, slot) && later.issued == OneIssued(s.issued, slot)
            && later.calls ==
               s.calls[c := s.calls[c].(minuteCount := s.db.Count(slot.Key()) + 1, stage := CountingHour)]
  {
    later := MinuteGuarded(s, c);
    AfterMinuteGuard(s, c);
    GuardsAreReached(s, c, delay);
  }

  lemma PassHourGuard(s: State, c: nat, delay: nat) returns (later: State)
    requires Enabled(s, CountHour(c)) && Within(s, delay)
    ensures Reaches(s, later, delay) && Within(later, delay)
    ensures var slot := Hour(s.calls[c].hour);
            && later.db == Guarded(s.db, slot) && later.issued == OneIssued(s.issued, slot)
            && later.calls == s.calls[c := s.calls[c].(hourCount := s.db.Count(slot.Key()) + 1, stage := Deciding)]
  {
    later := HourGuarded(s, c);
    AfterHourGuard(s, c);
    GuardsAreReached(s, c, delay);
  }

  lemma PassBothGuards(s: State, c: nat, delay: nat) returns (later: State)
    requires Enabled(s, CountMinute(c)) && Within(s, delay)
    ensures Reaches(s, later, delay) && Within(later, delay)
    ensures var minute, hour := Minute(s.calls[c].minute), Hour(s.calls[c].hour);
            && later.db == Guarded(Guarded(s.db, minute), hour)
            && later.issued == OneIssued(OneIssued(s.issued, minute), hour)
            && later.calls == s.calls[c := s.calls[c].(minuteCount := s.db.Count(minute.Key()) + 1,
                                                       hourCount := Guarded(s.db, minute).Count(hour.Key()) + 1,
                                                       stage := Deciding)]
  {
    var s1 := PassMinuteGuard(s, c, delay);
    assert s1.calls[c] == s.calls[c].(minuteCount := s.db.Count(Minute(s.calls[c].minute).Key()) + 1,
           stage := CountingHour);
    later := PassHourGuard(s1, c, delay);
    ReachesTransitively(s, s1, later, delay);
  }

  lemma DecideToPass(s: State, c: nat, delay: nat) returns (later: State)
    requires Enabled(s, Decide(c)) && Within(s, delay)
    requires s.calls[c].minuteCount <= MINUTE_LIMIT && s.calls[c].hourCount <= HOUR_LIMIT
    ensures Reaches(s, later, delay) && Within(later, delay)
    ensures later == s.(calls := s.calls[c := s.calls[c].(passedAt := s.db.now, stage := Passed)])
  {
    later := Do(s, Decide(c));
    ReachesItself(s, delay);
    ReachesOneStepFurther(s, s, Decide(c), delay);
  }

  /** A caller who finds fewer calls counted than the limits allow passes. */
  lemma UnderTheLimitsPasses(s: State, c: nat, delay: nat) returns (later: State)
    requires Enabled(s, CountMinute(c)) && Within(s, delay)
    requires s.db.Count(Minute(s.calls[c].minute).Key()) < MINUTE_LIMIT
             && s.db.Count(Hour(s.calls[c].hour).Key()) < HOUR_LIMIT
    ensures Reaches(s, later, delay) && Within(later, delay)
    ensures later.db == Guarded(Guarded(s.db, Minute(s.calls[c].minute)), Hour(s.calls[c].hour))
    ensures later.issued == OneIssued(OneIssued(s.issued, Minute(s.calls[c].minute)), Hour(s.calls[c].hour))
    ensures c in later.calls && later.calls == s.calls[c := later.calls[c]]
    ensures later.calls[c].stage.Passed? && later.calls[c].passedAt == s.db.now
            && later.calls[c].minute == s.calls[c].minute
  {
    HoursKeepTheirCount(s.db, Minute(s.calls[c].minute), Hour(s.calls[c].hour));
    var s1 := PassBothGuards(s, c, delay);
    later := DecideToPass(s1, c, delay);
    ReachesTransitively(s, s1, later, delay);
  }

  lemma OneMorePassed(s: State, later: State, c: nat)
    requires c in s.calls && !s.calls[c].stage.Passed?
    requires c in later.calls && later.calls == s.calls[c := later.calls[c]]
    requires later.calls[c].stage.Passed? && later.calls[c].minute == s.calls[c].minute
    ensures c !in PassedInMinute(s, s.calls[c].minute)
    ensures PassedInMinute(later, s.calls[c].minute) == PassedInMinute(s, s.calls[c].minute) + {c}
  {
  }

  /** The commands of the guard are those of an undisturbed call. */
  lemma GuardIsOneUndisturbedCall(s: State, c: nat) returns (later: State)
    requires Enabled(s, CountMinute(c))
    ensures exists events :: Run(s, events) && Exec(s, events) == later
    ensures later.db == Guarded(Guarded(s.db, Minute(s.calls[c].minute)), Hour(s.calls[c].hour))
    ensures c in later.calls && (later.calls[c].stage.Passed? || later.calls[c].stage.Refused?)
    ensures later.calls[c].stage.Passed? <==>
              s.db.Count(Minute(s.calls[c].minute).Key()) < 29 && s.db.Count(Hour(s.calls[c].hour).Key()) < 299
  {
    var delay := Latest(s);
    HoursKeepTheirCount(s.db, Minute(s.calls[c].minute), Hour(s.calls[c].hour));
    var s1 := PassBothGuards(s, c, delay);
    DecidesByTheCounts(s1, c);
    later := Do(s1, Decide(c));
    ReachesItself(s1, delay);
    ReachesOneStepFurther(s1, s1, Decide(c), delay);
    ReachesTransitively(s, s1, later, delay);
  }

  /** A bound on how late the calls under way are. */
  lemma Latest(s: State) returns (delay: nat)
    ensures Within(s, delay)
  {
    delay := s.db.now;
  }

  // What a lost counter costs.

  /** Whoever counts on a lost counter of its minute is the first of that minute again and passes,
      however many have passed before, as long as the hour has calls left. */
  lemma LostCounterLetsOneMorePass(s: State, c: nat, delay: nat) returns (later: State)
    requires Inv(s) && Enabled(s, CountMinute(c)) && Within(s, delay) && !Kept(s, Minute(s.calls[c].minute))
    requires s.db.Count(Hour(s.calls[c].hour).Key()) < HOUR_LIMIT
    ensures Reaches(s, later, delay)
    ensures c !in PassedInMinute(s, s.calls[c].minute)
    ensures PassedInMinute(later, s.calls[c].minute) == PassedInMinute(s, s.calls[c].minute) + {c}
  {
    CountIsNewIfAndOnlyIfKept(s, Minute(s.calls[c].minute));
    later := UnderTheLimitsPasses(s, c, delay);
    OneMorePassed(s, later, c);
  }

  /** The counter has counted `n` calls and runs out a full expiry from now. */
  predicate CountedNow(db: Db, key: string, ttl: int, n: nat) {
    if n == 0 then key !in db.entries
    else key in db.entries && db.entries[key] == Entry(Number(n), Some(db.now + 1000 * ttl))
  }

  lemma OneCounts(db: Db, key: string, ttl: int, n: nat)
    requires CountedNow(db, key, ttl, n) && 0 < ttl
    ensures db.Count(key) == n
    ensures CountAndArm(db, key, ttl).now == db.now && CountedNow(CountAndArm(db, key, ttl), key, ttl, n + 1)
  {
  }

  lemma OtherStays(db: Db, key: string, ttl: int, other: string, otherTtl: int, n: nat)
    requires CountedNow(db, other, otherTtl, n) && key != other
    ensures CountedNow(CountAndArm(db, key, ttl), other, otherTtl, n)
  {
  }

  lemma BothCount(db: Db, a: string, aTtl: int, b: string, bTtl: int, n: nat)
    requires CountedNow(db, a, aTtl, n) && CountedNow(db, b, bTtl, n) && a != b && 0 < aTtl && 0 < bTtl
    ensures db.Count(a) == n && db.Count(b) == n
    ensures var later := CountAndArm(CountAndArm(db, a, aTtl), b, bTtl);
            later.now == db.now && CountedNow(later, a, aTtl, n + 1) && CountedNow(later, b, bTtl, n + 1)
  {
    OneCounts(db, a, aTtl, n);
    OneCounts(db, b, bTtl, n);
    OtherStays(db, a, aTtl, b, bTtl, n);
    OneCounts(CountAndArm(db, a, aTtl), b, bTtl, n);
    OtherStays(CountAndArm(db, a, aTtl), b, bTtl, a, aTtl, n + 1);
  }

  /** The counters of the present minute and hour have both counted `n` calls, all of them now. */
  predicate CountersNow(db: Db, n: nat) {
    && CountedNow(db, Minute(Seconds(db.now) / 60).Key(), MINUTE_TTL, n)
    && CountedNow(db, Hour(Seconds(db.now) / 3600).Key(), HOUR_TTL, n)
  }

  lemma CountersMoveOn(db: Db, n: nat)
    requires CountersNow(db, n)
    ensures var minute, hour := Minute(Seconds(db.now) / 60), Hour(Seconds(db.now) / 3600);
            && db.Count(minute.Key()) == n && db.Count(hour.Key()) == n
            && Guarded(Guarded(db, minute), hour).now == db.now
            && CountersNow(Guarded(Guarded(db, minute), hour), n + 1)
  {
    var minute, hour := Minute(Seconds(db.now) / 60), Hour(Seconds(db.now) / 3600);
    KeysAreInjective(minute, hour);
    BothCount(db, minute.Key(), MINUTE_TTL, hour.Key(), HOUR_TTL, n);
  }

  predicate AllDone(s: State) {
    forall c <- s.calls :: s.calls[c].stage.Done()
  }

  /** The calls 1 to n have passed in this very instant, and there are no others. */
  ghost predicate Filled(s: State, n: nat) {
    && (forall c <- s.calls :: 1 <= c <= n) && AllDone(s)
    && CountersNow(s.db, n) && |PassedInMinute(s, Seconds(s.db.now) / 60)| == n
  }

  /** A caller who arrives now passes at once if the present minute and hour have calls left. */
  lemma NewcomerPasses(s: State, c: nat, delay: nat) returns (later: State)
    requires c !in s.calls && Within(s, delay)
    requires s.db.Count(Minute(Seconds(s.db.now) / 60).Key()) < MINUTE_LIMIT
    requires s.db.Count(Hour(Seconds(s.db.now) / 3600).Key()) < HOUR_LIMIT
    ensures Reaches(s, later, delay)
    ensures later.db == Guarded(Guarded(s.db, Minute(Seconds(s.db.now) / 60)), Hour(Seconds(s.db.now) / 3600))
    ensures c in later.calls && later.calls == s.calls[c := later.calls[c]]
    ensures later.calls[c].stage.Passed? && later.calls[c].minute == Seconds(s.db.now) / 60
  {
    var s1 := CallArrives(s, c, delay);
    later := UnderTheLimitsPasses(s1, c, delay);
    assert later.calls == s.calls[c := later.calls[c]];
    ReachesTransitively(s, s1, later, delay);
  }

  lemma NewcomerIsCounted(s: State, later: State, c: nat, minute: nat)
    requires c !in s.calls && c in later.calls && later.calls == s.calls[c := later.calls[c]]
    requires later.calls[c].stage.Passed? && later.calls[c].minute == minute
    ensures |PassedInMinute(later, minute)| == |PassedInMinute(s, minute)| + 1
  {
    assert PassedInMinute(later, minute) == PassedInMinute(s, minute) + {c};
  }

  lemma NextPasses(s: State, n: nat, delay: nat) returns (later: State)
    requires Filled(s, n) && n < MINUTE_LIMIT
    ensures Filled(later, n + 1) && Reaches(s, later, delay) && later.db.now == s.db.now
  {
    CountersMoveOn(s.db, n);
    later := NewcomerPasses(s, n + 1, delay);
    NewcomerIsCounted(s, later, n + 1, Seconds(s.db.now) / 60);
  }

  lemma {:induction false} FillMinute(s: State, n: nat, delay: nat) returns (later: State)
    requires Filled(s, n) && n <= MINUTE_LIMIT
    ensures Filled(later, MINUTE_LIMIT) && Reaches(s, later, delay) && later.db.now == s.db.now
    decreases MINUTE_LIMIT - n
  {
    if n < MINUTE_LIMIT {
      var next := NextPasses(s, n, delay);
      later := FillMinute(next, n + 1, delay);
      ReachesTransitively(s, next, later, delay);
    } else {
      later := s;
      ReachesItself(s, delay);
    }
  }

  /** Two minutes later the counter of the minute is gone and that of the hour is not. */
  lemma MinuteIsOver(db: Db, n: nat)
    requires CountersNow(db, n) && 1 <= n && db.now % MINUTE_MS == 0
    ensures var minute, hour := Seconds(db.now) / 60, Seconds(db.now) / 3600;
            && Seconds(db.now + MINUTE_MS - 1) / 60 == minute && Seconds(db.now + MINUTE_MS - 1) / 3600 == hour
            && db.Advance(2 * MINUTE_MS).Count(Minute(minute).Key()) == 0
            && db.Advance(2 * MINUTE_MS).Count(Hour(hour).Key()) == n
  {
    var w := db.now / MINUTE_MS;
    assert Seconds(db.now) == 60 * w && Seconds(db.now + MINUTE_MS - 1) == 60 * w + 59;
  }

  /** At the last instant of the minute one more caller reads the clock, and stops for 60001 ms. */
  lemma StragglerArrives(s: State, delay: nat) returns (later: State)
    requires AllDone(s) && 0 !in s.calls && delay == DELAY_MS + 1
    ensures Reaches(s, later, delay) && Within(later, delay) && later.db == s.db.Advance(2 * MINUTE_MS)
    ensures 0 in later.calls && later.calls == s.calls[0 := later.calls[0]] && later.calls[0].stage.CountingMinute?
    ensures later.calls[0].minute == Seconds(s.db.now + MINUTE_MS - 1) / 60
    ensures later.calls[0].hour == Seconds(s.db.now + MINUTE_MS - 1) / 3600
  {
    var s1 := Do(s, Tick(MINUTE_MS - 1));
    var s2 := CallArrives(s1, 0, delay);
    later := Do(s2, Tick(delay));
    ReachesItself(s, delay);
    ReachesOneStepFurther(s, s, Tick(MINUTE_MS - 1), delay);
    ReachesTransitively(s, s1, s2, delay);
    ReachesOneStepFurther(s, s2, Tick(delay), delay);
  }

  lemma StragglerPasses(s: State, delay: nat) returns (later: State)
    requires Filled(s, MINUTE_LIMIT) && s.db.now % MINUTE_MS == 0 && delay == DELAY_MS + 1
    ensures Reaches(s, later, delay) && |PassedInMinute(later, Seconds(s.db.now) / 60)| == 30
  {
    var minute := Seconds(s.db.now) / 60;
    MinuteIsOver(s.db, MINUTE_LIMIT);
    var s1 := StragglerArrives(s, delay);
    assert PassedInMinute(s1, minute) == PassedInMinute(s, minute);
    later := UnderTheLimitsPasses(s1, 0, delay);
    OneMorePassed(s1, later, 0);
    ReachesTransitively(s, s1, later, delay);
  }

  /** The bound on the delay is exact to the millisecond: from every empty store a run in which no
      caller is ever more than 60001 ms late leads to 30 calls passed on one minute of the clock. */
  lemma LateCallExceedsTheBudget(start: State) returns (later: State, minute: nat)
    requires Init(start)
    ensures Reaches(start, later, DELAY_MS + 1) && |PassedInMinute(later, minute)| == 30
  {
    var delay, wait := DELAY_MS + 1, (MINUTE_MS - start.db.now % MINUTE_MS) % MINUTE_MS;
    var s1 := Do(start, Tick(wait));
    assert s1.db.now % MINUTE_MS == 0;
    minute := Seconds(s1.db.now) / 60;
    var s2 := FillMinute(s1, 0, delay);
    later := StragglerPasses(s2, delay);
    ReachesItself(start, delay);
    ReachesOneStepFurther(start, start, Tick(wait), delay);
    ReachesTransitively(start, s1, s2, delay);
    ReachesTransitively(start, s2, later, delay);
  }

  // What a sliding minute can hold.

  const LATE := 2

  /** A run in which nobody is ever more than two milliseconds late leads from `start` to `s`. */
  ghost predicate From(start: State, s: State) {
    Init(start) && Reaches(start, s, LATE) && Within(s, LATE)
  }

  lemma FromOn(start: State, s: State, later: State)
    requires From(start, s) && Reaches(s, later, LATE) && Within(later, LATE)
    ensures From(start, later)
  {
    ReachesTransitively(start, s, later, LATE);
  }

  lemma FromTick(start: State, s: State, ms: nat)
    requires From(start, s) && Within(Do(s, Tick(ms)), LATE)
    ensures From(start, Do(s, Tick(ms)))
  {
    ReachesOneStepFurther(start, s, Tick(ms), LATE);
  }

  /** The calls from `lo` up to `hi` have read the clock in this minute and not yet counted. */
  predicate Waiting(s: State, lo: nat, hi: nat, minute: nat) {
    forall c | lo <= c < hi :: c in s.calls && s.calls[c].stage.CountingMinute? && s.calls[c].minute == minute
  }

  /** The calls below `n`, and no others, are there. */
  ghost predicate Numbered(s: State, n: nat) {
    forall c :: c in s.calls <==> 0 <= c < n
  }

  predicate SameBelow(s: State, later: State, n: nat) {
    forall c | 0 <= c < n :: c in s.calls ==> c in later.calls && later.calls[c] == s.calls[c]
  }

  lemma {:induction false} GroupArrives(start: State, s: State, lo: nat, hi: nat) returns (later: State)
    requires From(start, s) && Numbered(s, lo) && lo <= hi
    ensures From(start, later) && later == s.(calls := later.calls)
    ensures Numbered(later, hi) && SameBelow(s, later, lo) && Waiting(later, lo, hi, Seconds(s.db.now) / 60)
    ensures forall c | lo <= c < hi :: later.calls[c].readAt == s.db.now
    decreases hi - lo
  {
    if lo == hi {
      later := s;
    } else {
      var s1 := CallArrives(s, lo, LATE);
      FromOn(start, s, s1);
      later := GroupArrives(start, s1, lo + 1, hi);
    }
  }

  ghost predicate HoursBelow(s: State, n: nat) {
    forall hour: nat :: s.Issued(Hour(hour)) <= n
  }

  ghost predicate OtherMinutesSame(s: State, later: State, minute: nat) {
    forall other: nat | other != minute :: later.Issued(Minute(other)) == s.Issued(Minute(other))
  }

  /** The calls from `lo` up to `hi` have passed between `from` and `to`. */
  predicate PassedBetween(s: State, lo: nat, hi: nat, from: int, to: int) {
    forall c | lo <= c < hi :: c in s.calls && s.calls[c].stage.Passed? && from <= s.calls[c].passedAt <= to
  }

  lemma IssuedMoves(s: State, later: State, minute: nat, hour: nat, n: nat)
    requires later.issued == OneIssued(OneIssued(s.issued, Minute(minute)), Hour(hour)) && HoursBelow(s, n)
    ensures later.Issued(Minute(minute)) == s.Issued(Minute(minute)) + 1 && HoursBelow(later, n + 1)
    ensures OtherMinutesSame(s, later, minute)
  {
  }

  /** A timely caller finds the counters kept, so their counts are those issued. */
  lemma CountsAreIssued(start: State, s: State, c: nat)
    requires From(start, s) && c in s.calls && !s.calls[c].stage.Done()
    ensures s.db.Count(Minute(s.calls[c].minute).Key()) == s.Issued(Minute(s.calls[c].minute))
    ensures s.db.Count(Hour(s.calls[c].hour).Key()) == s.Issued(Hour(s.calls[c].hour))
  {
    var events :| TimelyRun(start, events, LATE) && Run(start, events) && Exec(start, events) == s;
    InitIsTimely(start);
    TimelyRunKeeps(start, events, LATE);
    TimelyFindsKept(s, c);
    CountIsNewIfAndOnlyIfKept(s, Minute(s.calls[c].minute));
    CountIsNewIfAndOnlyIfKept(s, Hour(s.calls[c].hour));
  }

  lemma OneOfTheGroupPasses(start: State, s: State, c: nat, minute: nat) returns (later: State)
    requires From(start, s) && Waiting(s, c, c + 1, minute)
    requires s.Issued(Minute(minute)) < MINUTE_LIMIT && HoursBelow(s, c) && c < HOUR_LIMIT
    ensures From(start, later) && later.db.now == s.db.now
    ensures c in later.calls && later.calls == s.calls[c := later.calls[c]]
            && PassedBetween(later, c, c + 1, s.db.now, s.db.now)
    ensures later.Issued(Minute(minute)) == s.Issued(Minute(minute)) + 1 && HoursBelow(later, c + 1)
    ensures OtherMinutesSame(s, later, minute)
  {
    CountsAreIssued(start, s, c);
    later := UnderTheLimitsPasses(s, c, LATE);
    FromOn(start, s, later);
    IssuedMoves(s, later, minute, s.calls[c].hour, c);
  }

  lemma {:induction false} GroupPasses(start: State, s: State, lo: nat, hi: nat, minute: nat) returns (later: State)
    requires From(start, s) && lo <= hi <= HOUR_LIMIT && Numbered(s, hi) && Waiting(s, lo, hi, minute)
    requires s.Issued(Minute(minute)) + (hi - lo) <= MINUTE_LIMIT && HoursBelow(s, lo)
    ensures From(start, later) && later.db.now == s.db.now
    ensures Numbered(later, hi) && SameBelow(s, later, lo) && PassedBetween(later, lo, hi, s.db.now, s.db.now)
    ensures HoursBelow(later, hi) && OtherMinutesSame(s, later, minute)
    decreases hi - lo
  {
    if lo == hi {
      later := s;
    } else {
      assert Waiting(s, lo, lo + 1, minute);
      var s1 := OneOfTheGroupPasses(start, s, lo, minute);
      assert Waiting(s1, lo + 1, hi, minute) && Numbered(s1, hi);
      later := GroupPasses(start, s1, lo + 1, hi, minute);
      assert lo in s1.calls && later.calls[lo] == s1.calls[lo];
    }
  }

  /** The minutes from `minute` on are unused. */
  ghost predicate UnusedFrom(s: State, minute: nat) {
    forall later: nat | minute <= later :: s.Issued(Minute(later)) == 0
  }

  /** 29 calls arrive and pass in this instant. */
  lemma GroupAtOnce(start: State, s: State, lo: nat) returns (later: State)
    requires From(start, s) && Numbered(s, lo) && HoursBelow(s, lo) && lo + MINUTE_LIMIT <= HOUR_LIMIT
    requires UnusedFrom(s, Seconds(s.db.now) / 60)
    ensures From(start, later) && later.db.now == s.db.now
    ensures var hi := lo + MINUTE_LIMIT;
            && Numbered(later, hi) && SameBelow(s, later, lo) && HoursBelow(later, hi)
            && PassedBetween(later, lo, hi, s.db.now, s.db.now)
    ensures UnusedFrom(later, Seconds(s.db.now) / 60 + 1)
  {
    var hi := lo + MINUTE_LIMIT;
    var s1 := GroupArrives(start, s, lo, hi);
    later := GroupPasses(start, s1, lo, hi, Seconds(s.db.now) / 60);
  }

  /** How long it is to the last instant of a minute. */
  function ToLastInstant(now: nat): nat {
    MINUTE_MS - 1 - now % MINUTE_MS
  }

  lemma LastInstant(now: nat)
    ensures var last := now + ToLastInstant(now);
            && Seconds(last + LATE) / 60 == Seconds(last) / 60 + 1
            && (last + LATE) % MINUTE_MS == 1
  {
    var w := now / MINUTE_MS;
    assert now + ToLastInstant(now) == MINUTE_MS * w + MINUTE_MS - 1;
    assert Seconds(MINUTE_MS * w + MINUTE_MS - 1) == 60 * w + 59;
    assert Seconds(MINUTE_MS * w + MINUTE_MS + 1) == 60 * w + 60;
  }

  /** 29 calls read the clock at the last instant of a minute and pass two milliseconds later. */
  lemma LateGroup(start: State) returns (s: State)
    requires Init(start)
    ensures From(start, s) && s.db.now % MINUTE_MS == 1
    ensures Numbered(s, 29) && HoursBelow(s, 29) && PassedBetween(s, 0, 29, s.db.now, s.db.now)
    ensures UnusedFrom(s, Seconds(s.db.now) / 60)
  {
    var wait := ToLastInstant(start.db.now);
    LastInstant(start.db.now);
    var s1 := Do(start, Tick(wait));
    var minute := Seconds(s1.db.now) / 60;
    ReachesItself(start, LATE);
    FromTick(start, start, wait);
    var s2 := GroupArrives(start, s1, 0, 29);
    var s3 := Do(s2, Tick(LATE));
    FromTick(start, s2, LATE);
    s := GroupPasses(start, s3, 0, 29, minute);
  }

  lemma FromTickAfterAll(start: State, s: State, n: nat, ms: nat)
    requires From(start, s) && Numbered(s, n) && PassedBetween(s, 0, n, 0, s.db.now)
    ensures From(start, Do(s, Tick(ms)))
  {
    assert AllDone(s);
    FromTick(start, s, ms);
  }

  lemma PassedJoins(s: State, later: State, lo: nat, hi: nat, from: int, to: int)
    requires PassedBetween(s, 0, lo, from, to) && SameBelow(s, later, lo) && PassedBetween(later, lo, hi, from, to)
    ensures PassedBetween(later, 0, hi, from, to)
  {
  }

  lemma PassedMoreWidely(s: State, lo: nat, hi: nat, from: int, to: int, earlier: int, later: int)
    requires PassedBetween(s, lo, hi, from, to) && earlier <= from && to <= later
    ensures PassedBetween(s, lo, hi, earlier, later)
  {
  }

  function Below(n: nat): set<nat> {
    if n == 0 then {} else Below(n - 1) + {n - 1}
  }

  lemma {:induction false} BelowHasSize(n: nat)
    ensures |Below(n)| == n && forall c: nat :: c in Below(n) <==> c < n
  {
    if n > 0 {
      BelowHasSize(n - 1);
    }
  }

  lemma AllAreCounted(s: State, n: nat, from: nat)
    requires Numbered(s, n) && PassedBetween(s, 0, n, from, from + MINUTE_MS - 1)
    ensures |PassingWithin(s, from, MINUTE_MS)| == n
  {
    BelowHasSize(n);
    assert PassingWithin(s, from, MINUTE_MS) == Below(n);
  }

  /** The bound of 87 calls by instants is reached: from every empty store a run in which no caller is
      ever more than two milliseconds late lets 87 calls pass within 60 s. */
  lemma SlidingMinuteCanHoldThreeBudgets(start: State) returns (later: State, from: nat)
    requires Init(start)
    ensures Reaches(start, later, 2) && |PassingWithin(later, from, 60000)| == 87
  {
    var s1 := LateGroup(start);
    from := s1.db.now;
    var to := from + MINUTE_MS - 1;
    var s2 := GroupAtOnce(start, s1, 29);
    PassedJoins(s1, s2, 29, 58, from, from);
    PassedMoreWidely(s2, 0, 58, from, from, 0, from);
    FromTickAfterAll(start, s2, 58, MINUTE_MS - 1);
    var s3 := Do(s2, Tick(MINUTE_MS - 1));
    assert Seconds(s3.db.now) / 60 == Seconds(s1.db.now) / 60 + 1;
    later := GroupAtOnce(start, s3, 58);
    PassedMoreWidely(s2, 0, 58, from, from, from, to);
    PassedMoreWidely(later, 58, 87, to, to, from, to);
    PassedJoins(s3, later, 58, 87, from, to);
    AllAreCounted(later, 87, from);
  }
}
