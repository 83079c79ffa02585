/** The guard in front of every Space-Track request: a counter per clock minute and one per clock
    hour. A caller reads the clock twice and then sends its INCR and EXPIRE commands one by one;
    any number of callers interleave, and a caller may stop anywhere. */
module Upstream {
  import opened Store
  import opened Sets
  import opened Text

  const MINUTE_MS := 60000
  const HOUR_MS := 3600000
  const MINUTE_LIMIT := 29
  const HOUR_LIMIT := 299
  const MINUTE_TTL := 120
  const HOUR_TTL := 7200
  const DELAY_MS := 60000

  datatype Slot = Minute(window: nat) | Hour(window: nat) {
    function Key(): string {
      match this
      case Minute(w) => "upstream:spacetrack:global:min:" + Decimal(w)
      case Hour(w) => "upstream:spacetrack:global:hr:" + Decimal(w)
    }

    /** When the window of this counter is over. */
    function End(): int {
      if Minute? then MINUTE_MS * (window + 1) else HOUR_MS * (window + 1)
    }

    function Ttl(): int {
      if Minute? then MINUTE_TTL else HOUR_TTL
    }
  }

  lemma KeysAreInjective(a: Slot, b: Slot)
    ensures a.Key() == b.Key() <==> a == b
  {
    if a.Key() == b.Key() {
      var p, q := "upstream:spacetrack:global:min:", "upstream:spacetrack:global:hr:";
      assert a.Minute? ==> a.Key()[27] == 'm' && a.Key()[|p|..] == Decimal(a.window);
      assert a.Hour? ==> a.Key()[27] == 'h' && a.Key()[|q|..] == Decimal(a.window);
      assert b.Minute? ==> b.Key()[27] == 'm' && b.Key()[|p|..] == Decimal(b.window);
      assert b.Hour? ==> b.Key()[27] == 'h' && b.Key()[|q|..] == Decimal(b.window);
      DecimalInjective(a.window, b.window);
    }
  }

  datatype Stage =
    | ReadingHour
    | CountingMinute
    | ArmingMinute
    | CountingHour
    | ArmingHour
    | Deciding
    | Passed
    | Refused
    | Crashed
  {
    predicate Done() {
      Passed? || Refused? || Crashed?
    }

    predicate HasMinute() {
      ArmingMinute? || CountingHour? || ArmingHour? || Deciding? || Passed? || Refused?
    }

    predicate HasHour() {
      ArmingHour? || Deciding? || Passed? || Refused?
    }
  }

  /** The two clock readings of a call, the counters they name, the counts it was given and the
      instant at which it passed. */
  datatype Call = Call(
    readAt: nat,
    minute: nat,
    hourAt: nat,
    hour: nat,
    minuteCount: nat,
    hourCount: nat,
    passedAt: nat,
    stage: Stage)

  /** A count handed out by a counter. */
  datatype Ticket = Ticket(slot: Slot, count: nat)

  /** `issued` says how many counts each counter has handed out, `owner` who was given each. */
  datatype State = State(db: Db, calls: map<nat, Call>, issued: map<Slot, nat>, owner: map<Ticket, nat>) {
    function Issued(slot: Slot): nat {
      if slot in issued then issued[slot] else 0
    }
  }

  datatype Event =
    | Tick(ms: nat)
    | OtherTraffic(db: Db)
    | Start(c: nat)
    | ReadHour(c: nat)
    | CountMinute(c: nat)
    | ArmMinute(c: nat)
    | CountHour(c: nat)
    | ArmHour(c: nat)
    | Decide(c: nat)
    | Crash(c: nat)

  ghost predicate Enabled(s: State, e: Event) {
    match e
    case Tick(_) => true
    case OtherTraffic(db) => db.now == s.db.now && forall slot: Slot :: s.db.AgreesOn(db, {slot.Key()})
    case Start(c) => c !in s.calls
    case ReadHour(c) => c in s.calls && s.calls[c].stage.ReadingHour?
    case CountMinute(c) => c in s.calls && s.calls[c].stage.CountingMinute?
    case ArmMinute(c) => c in s.calls && s.calls[c].stage.ArmingMinute?
    case CountHour(c) => c in s.calls && s.calls[c].stage.CountingHour?
    case ArmHour(c) => c in s.calls && s.calls[c].stage.ArmingHour?
    case Decide(c) => c in s.calls && s.calls[c].stage.Deciding?
    case Crash(c) => c in s.calls && !s.calls[c].stage.Done()
  }

  function Put(s: State, c: nat, call: Call): State {
    s.(calls := s.calls[c := call])
  }

  function Counted(s: State, slot: Slot, c: nat): State {
    s.(db := s.db.Incr(slot.Key()),
       issued := s.issued[slot := s.Issued(slot) + 1],
       owner := s.owner[Ticket(slot, NextCount(s, slot)) := c])
  }

  function Armed(s: State, slot: Slot): State {
    s.(db := s.db.Expire(slot.Key(), slot.Ttl()))
  }

  function NextCount(s: State, slot: Slot): nat {
    s.db.Count(slot.Key()) + 1
  }

  ghost function Do(s: State, e: Event): State
    requires Enabled(s, e)
  {
    match e
    case Tick(ms) => s.(db := s.db.Advance(ms))
    case OtherTraffic(db) => s.(db := db)
    case Start(c) =>
      var now := s.db.now;
      Put(s, c, Call(now, Seconds(now) / 60, now, Seconds(now) / 3600, 0, 0, 0, ReadingHour))
    case ReadHour(c) =>
      Put(s, c, s.calls[c].(hourAt := s.db.now, hour := Seconds(s.db.now) / 3600, stage := CountingMinute))
    case CountMinute(c) =>
      var count := NextCount(s, Minute(s.calls[c].minute));
      Put(Counted(s, Minute(s.calls[c].minute), c), c,
          s.calls[c].(minuteCount := count, stage := if count == 1 then ArmingMinute else CountingHour))
    case ArmMinute(c) => Put(Armed(s, Minute(s.calls[c].minute)), c, s.calls[c].(stage := CountingHour))
    case CountHour(c) =>
      var count := NextCount(s, Hour(s.calls[c].hour));
      Put(Counted(s, Hour(s.calls[c].hour), c), c,
          s.calls[c].(hourCount := count, stage := if count == 1 then ArmingHour else Deciding))
    case ArmHour(c) => Put(Armed(s, Hour(s.calls[c].hour)), c, s.calls[c].(stage := Deciding))
    case Decide(c) =>
      var exhausted := s.calls[c].minuteCount > MINUTE_LIMIT || s.calls[c].hourCount > HOUR_LIMIT;
      Put(s, c, s.calls[c].(passedAt := s.db.now, stage := if exhausted then Refused else Passed))
    case Crash(c) => Put(s, c, s.calls[c].(stage := Crashed))
  }

  ghost predicate Run(s: State, events: seq<Event>)
    decreases |events|
  {
    events == [] || (Enabled(s, events[0]) && Run(Do(s, events[0]), events[1..]))
  }

  ghost function Exec(s: State, events: seq<Event>): State
    requires Run(s, events)
    decreases |events|
  {
    if events == [] then s else Exec(Do(s, events[0]), events[1..])
  }

  ghost predicate Init(s: State) {
    s.calls == map[] && s.issued == map[] && s.owner == map[] && forall slot: Slot :: slot.Key() !in s.db.entries
  }

  // The budget holds exactly as long as no counter is lost.

  /** A counter that has handed out counts is still there. */
  predicate Kept(s: State, slot: Slot) {
    s.Issued(slot) > 0 ==> s.db.Live(slot.Key())
  }

  /** A step that counts finds its counter alive, or is the first one of its window. */
  ghost predicate Exact(s: State, e: Event)
    requires Enabled(s, e)
  {
    match e
    case CountMinute(c) => Kept(s, Minute(s.calls[c].minute))
    case CountHour(c) => Kept(s, Hour(s.calls[c].hour))
    case _ => true
  }

  ghost predicate ExactRun(s: State, events: seq<Event>)
    decreases |events|
  {
    events == [] || (Enabled(s, events[0]) && Exact(s, events[0]) && ExactRun(Do(s, events[0]), events[1..]))
  }

  /** A counter has handed out the counts 1 to n, each once. */
  predicate CounterOk(db: Db, key: string, count: nat) {
    if count == 0 then key !in db.entries else key in db.entries && db.entries[key].value == Number(count)
  }

  ghost predicate CountersOk(s: State) {
    forall slot: Slot :: CounterOk(s.db, slot.Key(), s.Issued(slot))
  }

  /** The readings of a call lie within the windows whose counters it uses. */
  predicate ReadingsOk(call: Call) {
    && call.readAt <= call.hourAt
    && MINUTE_MS * call.minute <= call.readAt < MINUTE_MS * (call.minute + 1)
    && HOUR_MS * call.hour <= call.hourAt < HOUR_MS * (call.hour + 1)
  }

  predicate Owns(owner: map<Ticket, nat>, c: nat, ticket: Ticket) {
    ticket in owner && owner[ticket] == c
  }

  /** A call owns the counts it was given, and has passed only with counts within the limits. */
  predicate CallOk(owner: map<Ticket, nat>, c: nat, call: Call) {
    && ReadingsOk(call)
    && (call.stage.HasMinute() ==> Owns(owner, c, Ticket(Minute(call.minute), call.minuteCount)))
    && (call.stage.HasHour() ==> Owns(owner, c, Ticket(Hour(call.hour), call.hourCount)))
    && (call.stage.Passed? ==>
          && call.minuteCount <= MINUTE_LIMIT && call.hourCount <= HOUR_LIMIT
          && call.hourAt <= call.passedAt)
  }

  ghost predicate CallsOk(s: State) {
    forall c <- s.calls :: s.calls[c].hourAt <= s.db.now && CallOk(s.owner, c, s.calls[c])
  }

  /** The counts handed out are those that somebody owns. */
  ghost predicate TicketsOk(s: State) {
    forall ticket: Ticket :: ticket in s.owner <==> 1 <= ticket.count <= s.Issued(ticket.slot)
  }

  ghost predicate Inv(s: State) {
    CountersOk(s) && CallsOk(s) && TicketsOk(s)
  }

  lemma WindowsOfNow(now: nat)
    ensures var minute, hour := Seconds(now) / 60, Seconds(now) / 3600;
            && MINUTE_MS * minute <= now < MINUTE_MS * (minute + 1)
            && HOUR_MS * hour <= now < HOUR_MS * (hour + 1)
  {
  }

  lemma CountingCounter(s: State, counted: Slot, c: nat, slot: Slot)
    requires CounterOk(s.db, slot.Key(), s.Issued(slot)) && Kept(s, counted)
    ensures CounterOk(Counted(s, counted, c).db, slot.Key(), Counted(s, counted, c).Issued(slot))
  {
    KeysAreInjective(counted, slot);
  }

  lemma CountersStep(s: State, e: Event)
    requires CountersOk(s) && Enabled(s, e) && Exact(s, e)
    ensures CountersOk(Do(s, e))
  {
    var s' := Do(s, e);
    forall slot: Slot
      ensures CounterOk(s'.db, slot.Key(), s'.Issued(slot))
    {
      match e {
        case OtherTraffic(db) => assert s.db.AgreesOn(db, {slot.Key()});
        case CountMinute(c) => CountingCounter(s, Minute(s.calls[c].minute), c, slot);
        case CountHour(c) => CountingCounter(s, Hour(s.calls[c].hour), c, slot);
        case ArmMinute(c) => KeysAreInjective(Minute(s.calls[c].minute), slot);
        case ArmHour(c) => KeysAreInjective(Hour(s.calls[c].hour), slot);
        case _ =>
      }
    }
  }

  /** The count that the next caller is given is a new one if and only if the counter has been
      kept. Otherwise it is the count 1 over again, which somebody was given before. */
  lemma CountIsNewIfAndOnlyIfKept(s: State, slot: Slot)
    requires Inv(s)
    ensures Kept(s, slot) <==> Ticket(slot, NextCount(s, slot)) !in s.owner
    ensures Kept(s, slot) ==> NextCount(s, slot) == s.Issued(slot) + 1
    ensures !Kept(s, slot) ==> NextCount(s, slot) == 1 && Ticket(slot, 1) in s.owner
  {
    assert CounterOk(s.db, slot.Key(), s.Issued(slot));
  }

  lemma OneCallMoves(s: State, c: nat, call: Call)
    requires CallsOk(s) && TicketsOk(s) && call.hourAt <= s.db.now && CallOk(s.owner, c, call)
    ensures CallsOk(Put(s, c, call)) && TicketsOk(Put(s, c, call))
  {
  }

  /** A count that is one above all those issued belongs to nobody yet. */
  lemma NewTicket(s: State, slot: Slot, c: nat)
    requires CallsOk(s) && TicketsOk(s) && NextCount(s, slot) == s.Issued(slot) + 1
    ensures CallsOk(Counted(s, slot, c)) && TicketsOk(Counted(s, slot, c))
    ensures Owns(Counted(s, slot, c).owner, c, Ticket(slot, NextCount(s, slot)))
  {
    var s' := Counted(s, slot, c);
    assert Ticket(slot, NextCount(s, slot)) !in s.owner;
    forall d <- s'.calls
      ensures CallOk(s'.owner, d, s'.calls[d])
    {
      assert CallOk(s.owner, d, s.calls[d]);
    }
  }

  lemma CountStep(s: State, e: Event)
    requires Inv(s) && Enabled(s, e) && (e.CountMinute? || e.CountHour?) && Exact(s, e)
    ensures CallsOk(Do(s, e)) && TicketsOk(Do(s, e))
  {
    var slot := if e.CountMinute? then Minute(s.calls[e.c].minute) else Hour(s.calls[e.c].hour);
    CountIsNewIfAndOnlyIfKept(s, slot);
    NewTicket(s, slot, e.c);
    OneCallMoves(Counted(s, slot, e.c), e.c, Do(s, e).calls[e.c]);
  }

  lemma ReadingStep(s: State, e: Event)
    requires CallsOk(s) && TicketsOk(s) && Enabled(s, e) && (e.Start? || e.ReadHour?)
    ensures CallsOk(Do(s, e)) && TicketsOk(Do(s, e))
  {
    WindowsOfNow(s.db.now);
    OneCallMoves(s, e.c, Do(s, e).calls[e.c]);
  }

  lemma ArmStep(s: State, e: Event)
    requires CallsOk(s) && TicketsOk(s) && Enabled(s, e) && (e.ArmMinute? || e.ArmHour?)
    ensures CallsOk(Do(s, e)) && TicketsOk(Do(s, e))
  {
    var slot := if e.ArmMinute? then Minute(s.calls[e.c].minute) else Hour(s.calls[e.c].hour);
    OneCallMoves(Armed(s, slot), e.c, Do(s, e).calls[e.c]);
  }

  lemma CallsStep(s: State, e: Event)
    requires Inv(s) && Enabled(s, e) && Exact(s, e)
    ensures CallsOk(Do(s, e)) && TicketsOk(Do(s, e))
  {
    match e
    case Tick(_) =>
    case OtherTraffic(_) =>
    case CountMinute(c) => CountStep(s, e);
    case CountHour(c) => CountStep(s, e);
    case Start(c) => ReadingStep(s, e);
    case ReadHour(c) => ReadingStep(s, e);
    case ArmMinute(c) => ArmStep(s, e);
    case ArmHour(c) => ArmStep(s, e);
    case Decide(c) => OneCallMoves(s, c, Do(s, e).calls[c]);
    case Crash(c) => OneCallMoves(s, c, s.calls[c].(stage := Crashed));
  }

  lemma {:induction false} RunKeeps(s: State, events: seq<Event>)
    requires Inv(s) && ExactRun(s, events)
    ensures Run(s, events) && Inv(Exec(s, events))
    decreases |events|
  {
    if events != [] {
      CountersStep(s, events[0]);
      CallsStep(s, events[0]);
      RunKeeps(Do(s, events[0]), events[1..]);
    }
  }

  // From distinct counts to the budget.

  /** As many calls as own different counts between 1 and `limit` of one counter. */
  lemma {:induction false} OwnersFit(calls: set<nat>, owner: map<Ticket, nat>, slot: Slot, limit: nat)
    requires forall c <- calls :: exists n: nat | 1 <= n <= limit :: Owns(owner, c, Ticket(slot, n))
    ensures |calls| <= limit
    decreases limit
  {
    if limit == 0 {
      assert calls == {};
    } else {
      var top := Ticket(slot, limit);
      var rest := if top in owner then calls - {owner[top]} else calls;
      forall c <- rest
        ensures exists n: nat | 1 <= n <= limit - 1 :: Owns(owner, c, Ticket(slot, n))
      {
        var n: nat :| 1 <= n <= limit && Owns(owner, c, Ticket(slot, n));
      }
      OwnersFit(rest, owner, slot, limit - 1);
    }
  }

  function PassedInMinute(s: State, minute: int): set<nat> {
    set c <- s.calls | s.calls[c].stage.Passed? && s.calls[c].minute == minute
  }

  function PassedInHour(s: State, hour: int): set<nat> {
    set c <- s.calls | s.calls[c].stage.Passed? && s.calls[c].hour == hour
  }

  lemma WindowBudget(s: State, minute: int, hour: int)
    requires Inv(s)
    ensures |PassedInMinute(s, minute)| <= MINUTE_LIMIT && |PassedInHour(s, hour)| <= HOUR_LIMIT
  {
    if minute >= 0 {
      forall c <- PassedInMinute(s, minute)
        ensures exists n: nat | 1 <= n <= MINUTE_LIMIT :: Owns(s.owner, c, Ticket(Minute(minute), n))
      {
        assert CallOk(s.owner, c, s.calls[c]);
        assert Ticket(Minute(minute), s.calls[c].minuteCount) in s.owner;
      }
      OwnersFit(PassedInMinute(s, minute), s.owner, Minute(minute), MINUTE_LIMIT);
    }
    if hour >= 0 {
      forall c <- PassedInHour(s, hour)
        ensures exists n: nat | 1 <= n <= HOUR_LIMIT :: Owns(s.owner, c, Ticket(Hour(hour), n))
      {
        assert CallOk(s.owner, c, s.calls[c]);
        assert Ticket(Hour(hour), s.calls[c].hourCount) in s.owner;
      }
      OwnersFit(PassedInHour(s, hour), s.owner, Hour(hour), HOUR_LIMIT);
    }
  }

  ghost predicate WithinBudget(s: State) {
    && (forall minute :: |PassedInMinute(s, minute)| <= MINUTE_LIMIT)
    && (forall hour :: |PassedInHour(s, hour)| <= HOUR_LIMIT)
  }

  lemma EveryWindowWithinBudget(s: State)
    requires Inv(s)
    ensures CallsOk(s) && WithinBudget(s)
  {
    forall window
      ensures |PassedInMinute(s, window)| <= MINUTE_LIMIT && |PassedInHour(s, window)| <= HOUR_LIMIT
    {
      WindowBudget(s, window, window);
    }
  }

  /** For every interleaving in which no caller counts on a counter that has been lost, at most 29
      calls pass per clock minute and at most 299 per clock hour. */
  lemma BudgetPerClockWindow(start: State, events: seq<Event>, minute: nat, hour: nat)
    requires Init(start) && ExactRun(start, events)
    ensures Run(start, events)
    ensures |PassedInMinute(Exec(start, events), minute)| <= 29
    ensures |PassedInHour(Exec(start, events), hour)| <= 299
  {
    RunKeeps(start, events);
    WindowBudget(Exec(start, events), minute, hour);
  }

  // Callers that are at most 60 s late never lose a counter.

  /** Every call that is still under way read the clock at most `delay` ago. */
  predicate Within(s: State, delay: nat) {
    forall c <- s.calls | !s.calls[c].stage.Done() :: s.db.now <= s.calls[c].readAt + delay
  }

  ghost predicate TimelyRun(s: State, events: seq<Event>, delay: nat)
    decreases |events|
  {
    Within(s, delay) && (events == [] || (Enabled(s, events[0]) && TimelyRun(Do(s, events[0]), events[1..], delay)))
  }

  /** A counter lives at least until a minute after its window. */
  predicate LongLived(db: Db, slot: Slot) {
    slot.Key() in db.entries && db.entries[slot.Key()].expiry.Some? ==>
      slot.End() + DELAY_MS <= db.entries[slot.Key()].expiry.value
  }

  ghost predicate AllLongLived(s: State) {
    forall slot: Slot :: LongLived(s.db, slot)
  }

  predicate PassedTimely(s: State) {
    forall c <- s.calls | s.calls[c].stage.Passed? :: s.calls[c].passedAt <= s.calls[c].readAt + DELAY_MS
  }

  lemma TimelyFindsKept(s: State, c: nat)
    requires Inv(s) && AllLongLived(s) && Within(s, DELAY_MS) && c in s.calls && !s.calls[c].stage.Done()
    ensures Kept(s, Minute(s.calls[c].minute)) && Kept(s, Hour(s.calls[c].hour))
  {
    var minute, hour := Minute(s.calls[c].minute), Hour(s.calls[c].hour);
    assert CallOk(s.owner, c, s.calls[c]);
    assert CounterOk(s.db, minute.Key(), s.Issued(minute)) && LongLived(s.db, minute);
    assert CounterOk(s.db, hour.Key(), s.Issued(hour)) && LongLived(s.db, hour);
  }

  lemma LongLivedStep(s: State, e: Event)
    requires CallsOk(s) && AllLongLived(s) && Enabled(s, e)
    ensures AllLongLived(Do(s, e))
  {
    forall slot: Slot
      ensures LongLived(Do(s, e).db, slot)
    {
      assert LongLived(s.db, slot);
      match e {
        case OtherTraffic(db) => assert s.db.AgreesOn(db, {slot.Key()});
        case CountMinute(c) => KeysAreInjective(Minute(s.calls[c].minute), slot);
        case CountHour(c) => KeysAreInjective(Hour(s.calls[c].hour), slot);
        case ArmMinute(c) =>
          KeysAreInjective(Minute(s.calls[c].minute), slot);
          assert CallOk(s.owner, c, s.calls[c]);
        case ArmHour(c) =>
          KeysAreInjective(Hour(s.calls[c].hour), slot);
          assert CallOk(s.owner, c, s.calls[c]);
        case _ =>
      }
    }
  }

  lemma PassedTimelyStep(s: State, e: Event)
    requires PassedTimely(s) && Within(s, DELAY_MS) && Enabled(s, e)
    ensures PassedTimely(Do(s, e))
  {
  }

  /** What holds in every state of a timely run. */
  ghost predicate TimelyInv(s: State) {
    Inv(s) && AllLongLived(s) && PassedTimely(s)
  }

  lemma TimelyStep(s: State, e: Event)
    requires TimelyInv(s) && Within(s, DELAY_MS) && Enabled(s, e)
    ensures Exact(s, e) && TimelyInv(Do(s, e))
  {
    if e.CountMinute? || e.CountHour? {
      TimelyFindsKept(s, e.c);
    }
    CountersStep(s, e);
    CallsStep(s, e);
    LongLivedStep(s, e);
    PassedTimelyStep(s, e);
  }

  lemma {:induction false} TimelyRunKeeps(s: State, events: seq<Event>, delay: nat)
    requires TimelyInv(s) && TimelyRun(s, events, delay) && delay <= DELAY_MS
    ensures ExactRun(s, events) && Run(s, events) && TimelyInv(Exec(s, events))
    decreases |events|
  {
    if events != [] {
      TimelyStep(s, events[0]);
      TimelyRunKeeps(Do(s, events[0]), events[1..], delay);
    }
  }

  lemma InitIsTimely(s: State)
    requires Init(s)
    ensures TimelyInv(s)
  {
  }

  /** If every caller is at most 60 s late no counter is lost, so the budget holds. */
  lemma TimelyCallersKeepTheBudget(start: State, events: seq<Event>, minute: nat, hour: nat)
    requires Init(start) && TimelyRun(start, events, DELAY_MS)
    ensures ExactRun(start, events) && Run(start, events)
    ensures |PassedInMinute(Exec(start, events), minute)| <= 29
    ensures |PassedInHour(Exec(start, events), hour)| <= 299
  {
    InitIsTimely(start);
    TimelyRunKeeps(start, events, DELAY_MS);
    WindowBudget(Exec(start, events), minute, hour);
  }

  // Sliding windows.

  lemma CoveredByTwo(a: set<nat>, b: set<nat>, c: set<nat>, limit: nat)
    requires a <= b + c && |b| <= limit && |c| <= limit
    ensures |a| <= 2 * limit
  {
    SubsetIsSmaller(a, b + c);
    assert |b + c| + |b * c| == |b| + |c|;
  }

  lemma CoveredByThree(a: set<nat>, b: set<nat>, c: set<nat>, d: set<nat>, limit: nat)
    requires a <= b + c + d && |b| <= limit && |c| <= limit && |d| <= limit
    ensures |a| <= 3 * limit
  {
    SubsetIsSmaller(a, b + c + d);
    assert |b + c| + |b * c| == |b| + |c|;
    assert |b + c + d| + |(b + c) * d| == |b + c| + |d|;
  }

  function PassedInMinuteFrom(s: State, from: nat): set<nat> {
    set c <- s.calls | s.calls[c].stage.Passed? && from <= s.calls[c].readAt < from + 60000
  }

  function PassedInHourFrom(s: State, from: nat): set<nat> {
    set c <- s.calls | s.calls[c].stage.Passed? && from <= s.calls[c].hourAt < from + 3600000
  }

  lemma ReadingsOfCalls(s: State, c: nat)
    requires CallsOk(s) && c in s.calls
    ensures ReadingsOk(s.calls[c]) && (s.calls[c].stage.Passed? ==> s.calls[c].hourAt <= s.calls[c].passedAt)
  {
    assert CallOk(s.owner, c, s.calls[c]);
  }

  lemma SlidingCover(s: State, from: nat, m: nat, h: nat)
    requires CallsOk(s) && MINUTE_MS * m <= from < MINUTE_MS * (m + 1) && HOUR_MS * h <= from < HOUR_MS * (h + 1)
    ensures PassedInMinuteFrom(s, from) <= PassedInMinute(s, m) + PassedInMinute(s, m + 1)
    ensures PassedInHourFrom(s, from) <= PassedInHour(s, h) + PassedInHour(s, h + 1)
  {
    forall c <- s.calls
      ensures ReadingsOk(s.calls[c])
    {
      ReadingsOfCalls(s, c);
    }
  }

  lemma SlidingBudget(s: State, from: nat)
    requires CallsOk(s) && WithinBudget(s)
    ensures |PassedInMinuteFrom(s, from)| <= 58 && |PassedInHourFrom(s, from)| <= 598
  {
    var m, h := Seconds(from) / 60, Seconds(from) / 3600;
    WindowsOfNow(from);
    SlidingCover(s, from, m, h);
    CoveredByTwo(PassedInMinuteFrom(s, from), PassedInMinute(s, m), PassedInMinute(s, m + 1), 29);
    CoveredByTwo(PassedInHourFrom(s, from), PassedInHour(s, h), PassedInHour(s, h + 1), 299);
  }

  /** Hence, by the clock readings of the calls, at most 58 pass in any sliding minute and at most
      598 in any sliding hour. */
  lemma BudgetPerSlidingWindow(start: State, events: seq<Event>, from: nat)
    requires Init(start) && ExactRun(start, events)
    ensures Run(start, events)
    ensures |PassedInMinuteFrom(Exec(start, events), from)| <= 58
    ensures |PassedInHourFrom(Exec(start, events), from)| <= 598
  {
    RunKeeps(start, events);
    EveryWindowWithinBudget(Exec(start, events));
    SlidingBudget(Exec(start, events), from);
  }

  /** The calls that pass, by the instant at which they do, within `length` from `from` on. */
  function PassingWithin(s: State, from: nat, length: nat): set<nat> {
    set c <- s.calls | s.calls[c].stage.Passed? && from <= s.calls[c].passedAt < from + length
  }

  /** Three windows of the clock cover what timely calls pass in a sliding one. */
  lemma InstantsCover(s: State, from: nat, m: nat, h: nat)
    requires CallsOk(s) && PassedTimely(s)
    requires MINUTE_MS * m <= from < MINUTE_MS * (m + 1) && HOUR_MS * h <= from < HOUR_MS * (h + 1)
    ensures PassingWithin(s, from, MINUTE_MS)
            <= PassedInMinute(s, m - 1) + PassedInMinute(s, m) + PassedInMinute(s, m + 1)
    ensures PassingWithin(s, from, HOUR_MS) <= PassedInHour(s, h - 1) + PassedInHour(s, h) + PassedInHour(s, h + 1)
  {
    forall c <- s.calls | s.calls[c].stage.Passed?
      ensures from <= s.calls[c].passedAt < from + MINUTE_MS ==> m - 1 <= s.calls[c].minute <= m + 1
      ensures from <= s.calls[c].passedAt < from + HOUR_MS ==> h - 1 <= s.calls[c].hour <= h + 1
    {
      ReadingsOfCalls(s, c);
    }
  }

  /** Two cover it if every call passes within the windows that it has read. */
  lemma PromptInstantsCover(s: State, from: nat, m: nat, h: nat)
    requires CallsOk(s) && PassedInTheirWindows(s)
    requires MINUTE_MS * m <= from < MINUTE_MS * (m + 1) && HOUR_MS * h <= from < HOUR_MS * (h + 1)
    ensures PassingWithin(s, from, MINUTE_MS) <= PassedInMinute(s, m) + PassedInMinute(s, m + 1)
    ensures PassingWithin(s, from, HOUR_MS) <= PassedInHour(s, h) + PassedInHour(s, h + 1)
  {
    forall c <- s.calls | s.calls[c].stage.Passed?
      ensures from <= s.calls[c].passedAt < from + MINUTE_MS ==> m <= s.calls[c].minute <= m + 1
      ensures from <= s.calls[c].passedAt < from + HOUR_MS ==> h <= s.calls[c].hour <= h + 1
    {
      ReadingsOfCalls(s, c);
    }
  }

  lemma InstantsBudget(s: State, from: nat)
    requires CallsOk(s) && WithinBudget(s) && PassedTimely(s)
    ensures |PassingWithin(s, from, MINUTE_MS)| <= 87 && |PassingWithin(s, from, HOUR_MS)| <= 897
  {
    var m, h := Seconds(from) / 60, Seconds(from) / 3600;
    WindowsOfNow(from);
    InstantsCover(s, from, m, h);
    CoveredByThree(PassingWithin(s, from, MINUTE_MS), PassedInMinute(s, m - 1), PassedInMinute(s, m),
        PassedInMinute(s, m + 1), 29);
    CoveredByThree(PassingWithin(s, from, HOUR_MS), PassedInHour(s, h - 1), PassedInHour(s, h),
        PassedInHour(s, h + 1), 299);
  }

  lemma PromptInstantsBudget(s: State, from: nat)
    requires CallsOk(s) && WithinBudget(s) && PassedInTheirWindows(s)
    ensures |PassingWithin(s, from, MINUTE_MS)| <= 58 && |PassingWithin(s, from, HOUR_MS)| <= 598
  {
    var m, h := Seconds(from) / 60, Seconds(from) / 3600;
    WindowsOfNow(from);
    PromptInstantsCover(s, from, m, h);
    CoveredByTwo(PassingWithin(s, from, MINUTE_MS), PassedInMinute(s, m), PassedInMinute(s, m + 1), 29);
    CoveredByTwo(PassingWithin(s, from, HOUR_MS), PassedInHour(s, h), PassedInHour(s, h + 1), 299);
  }

  /** Every call passes within the minute and the hour whose counters it has used. */
  predicate PassedInTheirWindows(s: State) {
    forall c <- s.calls | s.calls[c].stage.Passed? ::
      s.calls[c].passedAt < MINUTE_MS * (s.calls[c].minute + 1) && s.calls[c].passedAt < HOUR_MS * (s.calls[c].hour + 1)
  }

  /** By the instants at which calls pass: with callers at most 60 s late a sliding window meets
      three windows of the clock, so at most 87 calls pass in any minute and 897 in any hour. If
      every call passes within the windows that it has read it is two, so at most 58 and 598. */
  lemma BudgetByInstants(start: State, events: seq<Event>, from: nat)
    requires Init(start) && ExactRun(start, events)
    ensures Run(start, events)
    ensures var s := Exec(start, events);
            && (TimelyRun(start, events, DELAY_MS) ==>
                  |PassingWithin(s, from, 60000)| <= 87 && |PassingWithin(s, from, 3600000)| <= 897)
            && (PassedInTheirWindows(s) ==>
                  |PassingWithin(s, from, 60000)| <= 58 && |PassingWithin(s, from, 3600000)| <= 598)
  {
    RunKeeps(start, events);
    var s := Exec(start, events);
    EveryWindowWithinBudget(s);
    if TimelyRun(start, events, DELAY_MS) {
      InitIsTimely(start);
      TimelyRunKeeps(start, events, DELAY_MS);
      InstantsBudget(s, from);
    }
    if PassedInTheirWindows(s) {
      PromptInstantsBudget(s, from);
    }
  }

  /** What a call is told follows from its two counts alone, which are its ranks among those who have
      counted on the same counters as long as these are kept. */
  lemma DecidesByTheCounts(s: State, c: nat)
    requires Enabled(s, Decide(c))
    ensures var decided := Do(s, Decide(c));
            && decided.calls[c].stage ==
               (if s.calls[c].minuteCount <= 29 && s.calls[c].hourCount <= 299 then Passed else Refused)
            && decided.db == s.db && decided.calls[c].passedAt == s.db.now
  {
  }

  lemma CountsAreRanks(s: State, c: nat)
    requires Inv(s)
    ensures Enabled(s, CountMinute(c)) && Exact(s, CountMinute(c)) ==>
              Do(s, CountMinute(c)).calls[c].minuteCount == s.Issued(Minute(s.calls[c].minute)) + 1
    ensures Enabled(s, CountHour(c)) && Exact(s, CountHour(c)) ==>
              Do(s, CountHour(c)).calls[c].hourCount == s.Issued(Hour(s.calls[c].hour)) + 1
  {
    if Enabled(s, CountMinute(c)) {
      CountIsNewIfAndOnlyIfKept(s, Minute(s.calls[c].minute));
    }
    if Enabled(s, CountHour(c)) {
      CountIsNewIfAndOnlyIfKept(s, Hour(s.calls[c].hour));
    }
  }

  // The guard itself and where it is used.

  /** The store after one caller has counted and, if it was the first, set the expiry. */
  function CountAndArm(db: Db, key: string, ttl: int): Db {
    var counted := db.Incr(key);
    if db.Count(key) == 0 then counted.Expire(key, ttl) else counted
  }

  function Guarded(db: Db, slot: Slot): Db {
    CountAndArm(db, slot.Key(), slot.Ttl())
  }

  method CountOn(v: Valkey, slot: Slot) returns (count: nat)
    modifies v
    ensures count == old(v.View()).Count(slot.Key()) + 1 && v.View() == Guarded(old(v.View()), slot)
    ensures v.View().Lookup(slot.Key()) == Some(Number(count)) && old(v.View()).AgreesOutside(v.View(), {slot.Key()})
    ensures count == 1 ==> v.View().LivesFor(slot.Key(), if slot.Minute? then 120000 else 7200000)
    ensures count > 1 ==>
              forall ms: nat :: v.View().Advance(ms).Live(slot.Key()) <==> old(v.View()).Advance(ms).Live(slot.Key())
  {
    count := v.Incr(slot.Key());
    if count == 1 {
      v.Expire(slot.Key(), slot.Ttl());
    }
  }

  /** An undisturbed call counts on its minute and on its hour, whether or not it is let through, and
      is let through exactly if fewer than 29 and 299 have been counted there before it. */
  method GuardGlobal(v: Valkey, minute: nat, hour: nat) returns (ok: bool)
    modifies v
    ensures ok <==> old(v.View()).Count(Minute(minute).Key()) < 29 && old(v.View()).Count(Hour(hour).Key()) < 299
    ensures v.View() == Guarded(Guarded(old(v.View()), Minute(minute)), Hour(hour))
  {
    KeysAreInjective(Minute(minute), Hour(hour));
    var minuteCount := CountOn(v, Minute(minute));
    var hourCount := CountOn(v, Hour(hour));
    ok := !(minuteCount > MINUTE_LIMIT || hourCount > HOUR_LIMIT);
  }


  function CountTrue(flags: seq<bool>, n: nat): nat
    requires n <= |flags|
  {
    if n == 0 then 0 else CountTrue(flags, n - 1) + (if flags[n - 1] then 1 else 0)
  }

  /** What the client meets in one call: whether credentials are set, whether the first and the
      second guard let it pass, and whether the login is accepted. */
  datatype Conditions = Conditions(credentials: bool, guards: seq<bool>, loginAccepted: bool)

  class SpaceTrackClient {
    var authenticated: bool

    constructor ()
      ensures !authenticated
    {
      authenticated := false;
    }

    method Authenticate(c: Conditions) returns (ok: bool, guarded: nat, sent: nat)
      requires |c.guards| == 2
      modifies this
      ensures ok <==> c.credentials && c.guards[0] && c.loginAccepted
      ensures authenticated == (old(authenticated) || ok)
      ensures guarded == (if c.credentials then 1 else 0) && sent == CountTrue(c.guards, guarded)
    {
      ok, guarded, sent := false, 0, 0;
      if !c.credentials {
        return;
      }
      guarded := 1;
      if !c.guards[0] {
        return;
      }
      sent := 1;
      if c.loginAccepted {
        authenticated := true;
        ok := true;
      }
    }

    /** Every request that goes out, the login included, has passed a guard of its own, and every
        guard that lets the call pass is followed by exactly one request. Only a client that is
        authenticated at the end has sent the query. */
    method Get(c: Conditions) returns (queried: bool, guarded: nat, sent: nat)
      requires |c.guards| == 2
      modifies this
      ensures guarded <= 2 && sent == CountTrue(c.guards, guarded)
      ensures queried ==> authenticated
      ensures authenticated == (old(authenticated) || (c.credentials && c.guards[0] && c.loginAccepted))
      ensures guarded == if old(authenticated) then 1 else if !c.credentials then 0
                         else if c.guards[0] && c.loginAccepted then 2 else 1
      ensures old(authenticated) ==> authenticated && guarded == 1 && (queried <==> c.guards[0])
      ensures !old(authenticated) ==>
                (queried <==> c.credentials && c.guards[0] && c.loginAccepted && c.guards[1])
    {
      queried, guarded, sent := false, 0, 0;
      if !authenticated {
        var ok;
        ok, guarded, sent := Authenticate(c);
        if !ok {
          return;
        }
      }
      queried := c.guards[guarded];
      guarded := guarded + 1;
      if queried {
        sent := sent + 1;
      }
    }
  }
}
