/** The circuit breaker of one provider: a counter of failures that expires, and a switch that
    keeps calls out. Recording a failure takes up to two separate store commands, an INCR and
    then either the EXPIRE of a fresh counter or the SET of the switch, and any number of calls
    interleave; a call may also stop between its two commands. The store may be out of reach: a
    check that gets no answer lets its call pass, and a success may fail to clear the counter. */
module Circuit {
  import opened Store

  const FAILURE_THRESHOLD := 5
  const WINDOW_SECONDS := 300
  const OPEN_SECONDS := 600
  const WINDOW_MS := 1000 * WINDOW_SECONDS
  const OPEN_MS := 1000 * OPEN_SECONDS

  /** A recorded failure: its instant and how many successes before it have cleared the counter
      and how many have failed to. */
  datatype Failure = Failure(at: Time, cleared: nat, uncleared: nat)

  /** A call that has counted its failure and owes the follow-up command. */
  datatype Owed = Owed(count: int, failures: seq<Failure>)

  datatype Opening = Opening(at: Time, failures: seq<Failure>)

  /** A call that passed the check, with the number of openings before it; `answered` says whether
      the store replied to the check. */
  datatype Passage = Passage(at: Time, openings: nat, answered: bool)

  /** `life` lists the failures counted since the present counter was created. */
  datatype State = State(
    failKey: string,
    openKey: string,
    db: Db,
    cleared: nat,
    uncleared: nat,
    life: seq<Failure>,
    creator: nat,
    owed: map<nat, Owed>,
    openings: seq<Opening>,
    passages: seq<Passage>)

  datatype Event =
    | Tick(ms: nat)
    | OtherTraffic(db: Db)
    | Check(answered: bool)
    | Succeed(clears: bool)
    | CountFailure(call: nat)
    | FollowUp(call: nat)
    | Abandon(call: nat)

  predicate Enabled(s: State, e: Event) {
    match e
    case OtherTraffic(db) => s.db.AgreesOn(db, {s.failKey, s.openKey})
    case CountFailure(call) => call !in s.owed
    case FollowUp(call) => call in s.owed
    case Abandon(call) => call in s.owed
    case _ => true
  }

  function NextLife(s: State): seq<Failure> {
    (if s.db.Live(s.failKey) then s.life else []) + [Failure(s.db.now, s.cleared, s.uncleared)]
  }

  function Counted(s: State, call: nat): State {
    var life := NextLife(s);
    var count := s.db.Count(s.failKey) + 1;
    var s1 := s.(db := s.db.Incr(s.failKey), life := life);
    var s2 := if s.db.Live(s.failKey) then s1 else s1.(creator := call);
    if count == 1 || count >= FAILURE_THRESHOLD then s2.(owed := s.owed[call := Owed(count, life)]) else s2
  }

  function FollowedUp(s: State, call: nat): State
    requires call in s.owed
  {
    var owed := s.owed[call];
    var s1 := s.(owed := s.owed - {call});
    if owed.count == 1 then s1.(db := s.db.Expire(s.failKey, WINDOW_SECONDS))
    else s1.(db := s.db.SetEx(s.openKey, Text("1"), OPEN_SECONDS),
             openings := s.openings + [Opening(s.db.now, owed.failures)])
  }

  function Do(s: State, e: Event): State
    requires Enabled(s, e)
  {
    match e
    case Tick(ms) => s.(db := s.db.Advance(ms))
    case OtherTraffic(db) => s.(db := db)
    case Check(answered) =>
      if answered && s.db.Live(s.openKey) then s
      else s.(passages := s.passages + [Passage(s.db.now, |s.openings|, answered)])
    case Succeed(clears) =>
      if clears then s.(db := s.db.Del({s.failKey}), cleared := s.cleared + 1) else s.(uncleared := s.uncleared + 1)
    case CountFailure(call) => Counted(s, call)
    case FollowUp(call) => FollowedUp(s, call)
    case Abandon(call) => s.(owed := s.owed - {call})
  }

  predicate Run(s: State, events: seq<Event>)
    decreases |events|
  {
    events == [] || (Enabled(s, events[0]) && Run(Do(s, events[0]), events[1..]))
  }

  function Exec(s: State, events: seq<Event>): State
    requires Run(s, events)
    decreases |events|
  {
    if events == [] then s else Exec(Do(s, events[0]), events[1..])
  }

  predicate Init(s: State) {
    && s.failKey != s.openKey
    && s.failKey !in s.db.entries && s.openKey !in s.db.entries
    && s.cleared == 0 && s.uncleared == 0
    && s.life == [] && s.owed == map[] && s.openings == [] && s.passages == []
  }

  // What holds over every run.

  /** The failures of one counter: no success that cleared it came between them. */
  predicate OneLife(failures: seq<Failure>) {
    forall i, j | 0 <= i <= j < |failures| ::
      && failures[i].at <= failures[j].at
      && failures[i].cleared == failures[j].cleared && failures[i].uncleared <= failures[j].uncleared
  }

  predicate Past(s: State, f: Failure) {
    f.at <= s.db.now && f.uncleared <= s.uncleared
  }

  ghost predicate CounterOk(s: State) {
    s.db.Live(s.failKey) ==>
      && s.db.entries[s.failKey].value == Number(|s.life|) && s.life != []
      && OneLife(s.life)
      && Past(s, s.life[|s.life| - 1]) && s.life[|s.life| - 1].cleared == s.cleared
  }

  predicate DebtOk(s: State, o: Owed) {
    && o.count == |o.failures| && (o.count == 1 || o.count >= FAILURE_THRESHOLD)
    && OneLife(o.failures) && Past(s, o.failures[|o.failures| - 1])
  }

  ghost predicate OwedOk(s: State) {
    forall c <- s.owed :: DebtOk(s, s.owed[c])
  }

  predicate OpeningOk(s: State, o: Opening) {
    && |o.failures| >= FAILURE_THRESHOLD && OneLife(o.failures)
    && o.failures[|o.failures| - 1].at <= o.at <= s.db.now && Past(s, o.failures[|o.failures| - 1])
  }

  ghost predicate OpeningsOk(s: State) {
    && (forall i | 0 <= i < |s.openings| :: OpeningOk(s, s.openings[i]))
    && (forall i, j | 0 <= i <= j < |s.openings| :: s.openings[i].at <= s.openings[j].at)
    && (s.openKey in s.db.entries <==> s.openings != [])
    && (s.openings != [] ==> s.db.entries[s.openKey].expiry == Some(s.openings[|s.openings| - 1].at + OPEN_MS))
  }

  ghost predicate PassagesOk(s: State) {
    forall p <- s.passages ::
      && p.openings <= |s.openings| && p.at <= s.db.now
      && (forall i | p.openings <= i < |s.openings| :: p.at <= s.openings[i].at)
      && (p.answered ==> forall i | 0 <= i < p.openings :: s.openings[i].at + OPEN_MS <= p.at)
  }

  ghost predicate Counting(s: State) {
    s.failKey != s.openKey && CounterOk(s) && OwedOk(s)
  }

  ghost predicate Switching(s: State) {
    s.failKey != s.openKey && OpeningsOk(s) && PassagesOk(s)
  }

  ghost predicate Inv(s: State) {
    Counting(s) && Switching(s)
  }

  lemma LifeGrows(s: State)
    requires CounterOk(s)
    ensures OneLife(NextLife(s)) && s.db.Count(s.failKey) + 1 == |NextLife(s)|
  {
  }

  lemma CounterStep(s: State, e: Event)
    requires Counting(s) && Enabled(s, e)
    ensures CounterOk(Do(s, e))
  {
    LifeGrows(s);
  }

  lemma NewDebt(s: State, call: nat)
    requires Counting(s) && Enabled(s, CountFailure(call)) && call in Counted(s, call).owed
    ensures DebtOk(Counted(s, call), Counted(s, call).owed[call])
  {
    LifeGrows(s);
  }

  lemma OwedStep(s: State, e: Event)
    requires Counting(s) && Enabled(s, e)
    ensures OwedOk(Do(s, e))
  {
    var s' := Do(s, e);
    forall c <- s'.owed
      ensures DebtOk(s', s'.owed[c])
    {
      if e.CountFailure? && c == e.call {
        NewDebt(s, c);
      } else {
        assert DebtOk(s, s.owed[c]);
      }
    }
  }

  lemma CountingStep(s: State, e: Event)
    requires Counting(s) && Enabled(s, e)
    ensures Counting(Do(s, e))
  {
    CounterStep(s, e);
    OwedStep(s, e);
  }

  lemma OpeningStep(s: State, call: nat)
    requires Counting(s) && Switching(s) && Enabled(s, FollowUp(call)) && s.owed[call].count != 1
    ensures Switching(Do(s, FollowUp(call)))
  {
    var s' := Do(s, FollowUp(call));
    assert s'.openings[|s.openings|] == Opening(s.db.now, s.owed[call].failures);
    forall i | 0 <= i < |s'.openings|
      ensures OpeningOk(s', s'.openings[i])
    {
      assert i < |s.openings| ==> OpeningOk(s, s.openings[i]);
    }
  }

  lemma PassingStep(s: State, answered: bool)
    requires Switching(s)
    ensures Switching(Do(s, Check(answered)))
  {
  }

  lemma SwitchUntouched(s: State, s': State)
    requires Switching(s) && s'.failKey == s.failKey && s'.openKey == s.openKey
    requires s.db.now <= s'.db.now && s.uncleared <= s'.uncleared
    requires s'.openings == s.openings && s'.passages == s.passages
    requires s.openKey in s'.db.entries <==> s.openKey in s.db.entries
    requires s.openKey in s.db.entries ==> s'.db.entries[s.openKey] == s.db.entries[s.openKey]
    ensures Switching(s')
  {
  }

  lemma SwitchingStep(s: State, e: Event)
    requires Counting(s) && Switching(s) && Enabled(s, e)
    ensures Switching(Do(s, e))
  {
    match e
    case Check(answered) => PassingStep(s, answered);
    case FollowUp(call) =>
      if s.owed[call].count == 1 {
        SwitchUntouched(s, Do(s, e));
      } else {
        OpeningStep(s, call);
      }
    case _ => SwitchUntouched(s, Do(s, e));
  }

  lemma {:induction false} RunKeeps(s: State, events: seq<Event>)
    requires Inv(s) && Run(s, events)
    ensures Inv(Exec(s, events))
    decreases |events|
  {
    if events != [] {
      CountingStep(s, events[0]);
      SwitchingStep(s, events[0]);
      RunKeeps(Do(s, events[0]), events[1..]);
    }
  }

  /** Over every interleaving, crashes and an unreachable store included: the circuit opens only on
      the fifth or a later failure of one counter. No success that cleared the counter lies between
      them, and no more other successes than have failed to clear it in the whole run: none at all
      if none has. */
  lemma OpensOnlyAfterFiveFailures(start: State, events: seq<Event>)
    requires Init(start) && Run(start, events)
    ensures var s := Exec(start, events);
            forall o <- s.openings ::
              && |o.failures| >= 5 && o.failures[|o.failures| - 1].at <= o.at
              && forall i, j | 0 <= i <= j < |o.failures| ::
                   && o.failures[i].at <= o.failures[j].at && o.failures[i].cleared == o.failures[j].cleared
                   && 0 <= o.failures[j].uncleared - o.failures[i].uncleared <= s.uncleared
  {
    RunKeeps(start, events);
    var s := Exec(start, events);
    forall o <- s.openings
      ensures OpeningOk(s, o)
    {
      var i :| 0 <= i < |s.openings| && s.openings[i] == o;
      assert OpeningsOk(s);
    }
  }

  /** Whoever passed the check within 600 s of an earlier opening got no answer to it. */
  lemma OnlyUnansweredChecksPassAnOpenCircuit(start: State, events: seq<Event>)
    requires Init(start) && Run(start, events)
    ensures var s := Exec(start, events);
            forall p <- s.passages ::
              && p.openings <= |s.openings|
              && (forall i | p.openings <= i < |s.openings| :: p.at <= s.openings[i].at)
              && ((exists i | 0 <= i < p.openings :: p.at < s.openings[i].at + 600000) ==> !p.answered)
  {
    RunKeeps(start, events);
    assert PassagesOk(Exec(start, events));
  }

  /** The next check lets its call pass if and only if it gets no answer or every opening so far
      lies at least 600 s back. */
  lemma CheckPassesExactly(start: State, events: seq<Event>, answered: bool)
    requires Init(start) && Run(start, events)
    ensures var s := Exec(start, events);
            var s' := Do(s, Check(answered));
            if !answered || forall i | 0 <= i < |s.openings| :: s.openings[i].at + 600000 <= s.db.now
            then s'.passages == s.passages + [Passage(s.db.now, |s.openings|, answered)]
            else s'.passages == s.passages
  {
    RunKeeps(start, events);
    assert OpeningsOk(Exec(start, events));
  }

  /** From the fifth failure on each one opens the circuit anew, as soon as its follow-up gets through;
      from then on answered checks keep calls out for 600 s. */
  lemma EveryFurtherFailureOpens(s: State, call: nat, ms: nat)
    requires Inv(s) && Enabled(s, CountFailure(call)) && s.db.Live(s.failKey) && |s.life| >= 4
    ensures Enabled(Do(s, CountFailure(call)), FollowUp(call))
    ensures var after := Do(Do(s, CountFailure(call)), FollowUp(call));
            && after.openings ==
               s.openings + [Opening(s.db.now, s.life + [Failure(s.db.now, s.cleared, s.uncleared)])]
            && (after.db.Advance(ms).Live(s.openKey) <==> ms < 600000)
            && after.passages == s.passages
  {
    LifeGrows(s);
  }

  /** Fewer failures never open it: they only count. */
  lemma FewFailuresOnlyCount(s: State, call: nat)
    requires Inv(s) && Enabled(s, CountFailure(call)) && (s.db.Live(s.failKey) ==> |s.life| < 4)
    ensures var counted := Do(s, CountFailure(call));
            && counted.openings == s.openings && s.db.AgreesOutside(counted.db, {s.failKey})
            && counted.db.Lookup(s.failKey) == Some(Number(if s.db.Live(s.failKey) then |s.life| + 1 else 1))
            && (call in counted.owed <==> !s.db.Live(s.failKey))
            && (call in counted.owed ==>
                  && Do(counted, FollowUp(call)).openings == s.openings
                  && Do(counted, FollowUp(call)).db.LivesFor(s.failKey, 300000))
  {
    LifeGrows(s);
  }

  /** A success whose DEL gets through leaves no counter, so the next failure is the first again. */
  lemma SuccessStartsOver(s: State, call: nat)
    requires Inv(s) && call !in s.owed
    ensures var later := Do(s, Succeed(true));
            && !later.db.Live(s.failKey) && s.db.AgreesOutside(later.db, {s.failKey})
            && later.openings == s.openings
            && Do(later, CountFailure(call)).life == [Failure(s.db.now, s.cleared + 1, s.uncleared)]
  {
  }

  // What prompt expiry adds.

  /** Nobody is further than `delay` behind with a command owed. With a delay of zero the two
      commands of a failure are one step. */
  predicate Prompt(s: State, delay: nat) {
    forall c <- s.owed ::
      && s.owed[c].failures != []
      && s.db.now <= s.owed[c].failures[|s.owed[c].failures| - 1].at + delay
  }

  /** No call stops between creating the counter and giving it its expiry. */
  predicate Orderly(s: State, e: Event) {
    e.Abandon? && e.call in s.owed ==> s.owed[e.call].count != 1
  }

  predicate PromptRun(s: State, events: seq<Event>, delay: nat)
    decreases |events|
  {
    Prompt(s, delay) &&
    (events == [] ||
     (Enabled(s, events[0]) && Orderly(s, events[0]) && PromptRun(Do(s, events[0]), events[1..], delay)))
  }

  /** A live counter has its expiry, at most a window and a delay after its creation, or its
      creator is still about to set it. */
  ghost predicate LifetimeOk(s: State, delay: nat) {
    s.db.Live(s.failKey) && s.life != [] ==>
      && (s.db.entries[s.failKey].expiry.Some? ==>
            s.db.entries[s.failKey].expiry.value <= s.life[0].at + delay + WINDOW_MS)
      && (s.db.entries[s.failKey].expiry.None? ==> s.creator in s.owed && s.owed[s.creator] == Owed(1, [s.life[0]]))
      && forall c <- s.owed | |s.owed[c].failures| == 1 :: s.owed[c].failures[0].at <= s.life[0].at
  }

  predicate WithinWindow(failures: seq<Failure>, delay: nat) {
    forall i | 0 <= i < |failures| :: failures[i].at < failures[0].at + delay + WINDOW_MS
  }

  ghost predicate WindowInv(s: State, delay: nat) {
    && LifetimeOk(s, delay)
    && (forall c <- s.owed :: WithinWindow(s.owed[c].failures, delay))
    && (forall o <- s.openings :: WithinWindow(o.failures, delay))
  }

  lemma LifetimeAfterCount(s: State, call: nat, delay: nat)
    requires Counting(s) && LifetimeOk(s, delay) && Prompt(s, delay) && Enabled(s, CountFailure(call))
    ensures LifetimeOk(Do(s, CountFailure(call)), delay)
  {
    LifeGrows(s);
  }

  lemma LifetimeAfterFollowUp(s: State, call: nat, delay: nat)
    requires Counting(s) && LifetimeOk(s, delay) && Prompt(s, delay) && Enabled(s, FollowUp(call))
    ensures LifetimeOk(Do(s, FollowUp(call)), delay)
  {
    assert DebtOk(s, s.owed[call]);
  }

  lemma LifetimeStep(s: State, e: Event, delay: nat)
    requires Counting(s) && LifetimeOk(s, delay) && Prompt(s, delay) && Enabled(s, e) && Orderly(s, e)
    ensures LifetimeOk(Do(s, e), delay)
  {
    match e
    case CountFailure(call) => LifetimeAfterCount(s, call, delay);
    case FollowUp(call) => LifetimeAfterFollowUp(s, call, delay);
    case _ =>
  }

  /** No failure is counted on a counter older than a window and a delay. */
  lemma CounterIsYoung(s: State, delay: nat)
    requires Counting(s) && LifetimeOk(s, delay) && Prompt(s, delay)
    ensures WithinWindow(NextLife(s), delay)
    ensures s.db.Live(s.failKey) ==> s.db.now < s.life[0].at + delay + WINDOW_MS
  {
  }

  lemma WindowStep(s: State, e: Event, delay: nat)
    requires Counting(s) && WindowInv(s, delay) && Prompt(s, delay) && Enabled(s, e) && Orderly(s, e)
    ensures WindowInv(Do(s, e), delay)
  {
    LifetimeStep(s, e, delay);
    CounterIsYoung(s, delay);
  }

  lemma {:induction false} WindowRun(s: State, events: seq<Event>, delay: nat)
    requires Inv(s) && WindowInv(s, delay) && PromptRun(s, events, delay)
    ensures Run(s, events) && WindowInv(Exec(s, events), delay) && Inv(Exec(s, events))
            && Prompt(Exec(s, events), delay)
    decreases |events|
  {
    if events != [] {
      CountingStep(s, events[0]);
      SwitchingStep(s, events[0]);
      WindowStep(s, events[0], delay);
      WindowRun(Do(s, events[0]), events[1..], delay);
    }
  }

  /** If every call follows up within `delay`, the failures behind an opening all come less than 300 s
      and that delay after the first of them; less than 300 s when the two commands are one step. */
  lemma FailuresLieInOneWindow(start: State, events: seq<Event>, delay: nat)
    requires Init(start) && PromptRun(start, events, delay)
    ensures Run(start, events)
    ensures forall o <- Exec(start, events).openings ::
              forall i | 0 <= i < |o.failures| :: o.failures[i].at < o.failures[0].at + 300000 + delay
  {
    WindowRun(start, events, delay);
    forall o <- Exec(start, events).openings
      ensures WithinWindow(o.failures, delay)
    {
    }
  }

  /** When the circuit has lapsed, a counter that is still alive was created after the last
      opening, so failures from before it cannot reopen the circuit. */
  lemma OldFailuresAreForgotten(start: State, events: seq<Event>, delay: nat)
    requires Init(start) && PromptRun(start, events, delay) && delay <= OPEN_MS - WINDOW_MS
    ensures Run(start, events)
    ensures var s := Exec(start, events);
            s.openings != [] && !s.db.Live(s.openKey) && s.db.Live(s.failKey) ==>
              && s.life != [] && s.db.Lookup(s.failKey) == Some(Number(|s.life|))
              && forall f <- s.life :: s.openings[|s.openings| - 1].at < f.at
  {
    WindowRun(start, events, delay);
    var s := Exec(start, events);
    if s.openings != [] && !s.db.Live(s.openKey) && s.db.Live(s.failKey) {
      CounterIsYoung(s, delay);
      assert OneLife(s.life);
      forall f <- s.life
        ensures s.life[0].at <= f.at
      {
        var i :| 0 <= i < |s.life| && s.life[i] == f;
      }
    }
  }

  ghost predicate Reaches(s: State, later: State) {
    exists events :: Run(s, events) && Exec(s, events) == later
  }

  lemma ReachesOneStepEarlier(s: State, e: Event, later: State)
    requires Enabled(s, e) && (Do(s, e) == later || Reaches(Do(s, e), later))
    ensures Reaches(s, later)
  {
    var next := Do(s, e);
    assert Run(next, []) && Exec(next, []) == next;
    var events :| Run(next, events) && Exec(next, events) == later;
    assert ([e] + events)[1..] == events;
    assert Run(s, [e] + events) && Exec(s, [e] + events) == later;
  }

  /** The counter is there, has no expiry, and nobody is about to give it one. */
  ghost predicate Immortal(s: State) {
    && s.failKey in s.db.entries
    && s.db.entries[s.failKey] == Entry(Number(|s.life|), None)
    && s.life != [] && s.owed == map[]
  }

  lemma {:induction false} CountAfterPauses(s: State, call: nat, pause: nat) returns (later: State)
    requires Immortal(s) && |s.life| < FAILURE_THRESHOLD
    ensures forall target :: Reaches(later, target) ==> Reaches(s, target)
    ensures later.life == s.life + [Failure(s.db.now + pause, s.cleared, s.uncleared)]
    ensures later.cleared == s.cleared && later.uncleared == s.uncleared
    ensures later.db.now == s.db.now + pause && later.openings == s.openings
    ensures later.failKey == s.failKey && later.openKey == s.openKey
    ensures |later.life| < FAILURE_THRESHOLD ==> Immortal(later)
    ensures |later.life| == FAILURE_THRESHOLD ==> later.owed == map[call := Owed(FAILURE_THRESHOLD, later.life)]
  {
    var s1 := Do(s, Tick(pause));
    later := Do(s1, CountFailure(call));
    forall target | Reaches(later, target)
      ensures Reaches(s, target)
    {
      ReachesOneStepEarlier(s1, CountFailure(call), target);
      ReachesOneStepEarlier(s, Tick(pause), target);
    }
  }

  /** The window is only as good as the EXPIRE. A call that stops right after creating the
      counter leaves it without expiry: however long the pauses, four more failures open the
      circuit. */
  lemma AbandonedCounterNeverExpires(s: State, call: nat, a: nat, b: nat, c: nat, d: nat) returns (later: State)
    requires Inv(s) && s.owed == map[] && !s.db.Live(s.failKey)
    ensures Reaches(s, later) && |later.openings| == |s.openings| + 1
    ensures var failures := later.openings[|s.openings|].failures;
            |failures| == 5 && failures[4].at - failures[0].at == a + b + c + d
  {
    var s1 := Do(s, CountFailure(call));
    var s2 := Do(s1, Abandon(call));
    var s3 := CountAfterPauses(s2, call, a);
    var s4 := CountAfterPauses(s3, call, b);
    var s5 := CountAfterPauses(s4, call, c);
    var s6 := CountAfterPauses(s5, call, d);
    later := Do(s6, FollowUp(call));
    ReachesOneStepEarlier(s6, FollowUp(call), later);
    ReachesOneStepEarlier(s1, Abandon(call), later);
    ReachesOneStepEarlier(s, CountFailure(call), later);
  }

  /** The counter is alive and nobody owes anything; the circuit has never been opened. */
  ghost predicate Unopened(s: State) {
    && s.failKey != s.openKey
    && s.db.Live(s.failKey) && s.db.entries[s.failKey].value == Number(|s.life|)
    && s.life != [] && s.owed == map[] && s.openings == [] && s.passages == []
  }

  lemma CountAnother(s: State, call: nat) returns (later: State)
    requires Unopened(s) && |s.life| < FAILURE_THRESHOLD
    ensures later == Do(s, CountFailure(call))
    ensures later == s.(db := later.db, life := later.life, owed := later.owed) && later.db.now == s.db.now
    ensures later.life == s.life + [Failure(s.db.now, s.cleared, s.uncleared)]
    ensures |later.life| < FAILURE_THRESHOLD ==> Unopened(later)
    ensures |later.life| == FAILURE_THRESHOLD ==> later.owed == map[call := Owed(FAILURE_THRESHOLD, later.life)]
  {
    later := Do(s, CountFailure(call));
  }

  lemma OpenAndPass(s: State) returns (later: State)
    requires Unopened(s) && |s.life| == 1
    ensures Reaches(s, later)
    ensures |later.openings| == 1 && later.openings[0].at == s.db.now && |later.openings[0].failures| == 5
    ensures later.openings[0].failures[0] == s.life[0] && later.openings[0].failures[4].uncleared == s.uncleared
    ensures later.passages == [Passage(s.db.now, 1, false)]
  {
    var s1 := CountAnother(s, 1);
    var s2 := CountAnother(s1, 2);
    var s3 := CountAnother(s2, 3);
    var s4 := CountAnother(s3, 4);
    var s5 := Do(s4, FollowUp(4));
    later := Do(s5, Check(false));
    ReachesOneStepEarlier(s5, Check(false), later);
    ReachesOneStepEarlier(s4, FollowUp(4), later);
    ReachesOneStepEarlier(s3, CountFailure(4), later);
    ReachesOneStepEarlier(s2, CountFailure(3), later);
    ReachesOneStepEarlier(s1, CountFailure(2), later);
    ReachesOneStepEarlier(s, CountFailure(1), later);
  }

  /** Both limits of these guarantees are reached: a run from an empty store in which a success that
      could not clear the counter lies between the failures of an opening, and a check without an
      answer lets a call pass in the very moment of that opening. */
  lemma UnreachableStoreWeakensTheCircuit(start: State) returns (s: State)
    requires Init(start)
    ensures Reaches(start, s)
    ensures |s.openings| == 1 && |s.passages| == 1
    ensures |s.openings[0].failures| == 5 && s.openings[0].failures[0].uncleared < s.openings[0].failures[4].uncleared
    ensures s.passages[0].openings == 1 && s.passages[0].at < s.openings[0].at + 600000
  {
    var s1 := Do(start, CountFailure(0));
    var s2 := Do(s1, FollowUp(0));
    var s3 := Do(s2, Succeed(false));
    s := OpenAndPass(s3);
    ReachesOneStepEarlier(s2, Succeed(false), s);
    ReachesOneStepEarlier(s1, FollowUp(0), s);
    ReachesOneStepEarlier(start, CountFailure(0), s);
  }

  // How far apart the failures of an opening can be.

  ghost predicate ReachesPromptly(s: State, later: State, delay: nat) {
    exists events :: PromptRun(s, events, delay) && Run(s, events) && Exec(s, events) == later
  }

  lemma ReachesPromptlyOneStepEarlier(s: State, e: Event, later: State, delay: nat)
    requires Enabled(s, e) && Orderly(s, e) && Prompt(s, delay) && ReachesPromptly(Do(s, e), later, delay)
    ensures ReachesPromptly(s, later, delay)
  {
    var next := Do(s, e);
    var events :| PromptRun(next, events, delay) && Run(next, events) && Exec(next, events) == later;
    assert ([e] + events)[1..] == events;
    assert PromptRun(s, [e] + events, delay) && Run(s, [e] + events) && Exec(s, [e] + events) == later;
  }

  /** Four more failures at one instant open the circuit. */
  lemma FourMoreOpen(s: State, delay: nat) returns (later: State)
    requires Unopened(s) && |s.life| == 1
    ensures ReachesPromptly(s, later, delay)
    ensures |later.openings| == 1 && |later.openings[0].failures| == 5
    ensures later.openings[0].failures[0] == s.life[0] && later.openings[0].failures[4].at == s.db.now
  {
    var s1 := CountAnother(s, 1);
    var s2 := CountAnother(s1, 2);
    var s3 := CountAnother(s2, 3);
    var s4 := CountAnother(s3, 4);
    later := Do(s4, FollowUp(4));
    assert PromptRun(later, [], delay) && Run(later, []) && Exec(later, []) == later;
    ReachesPromptlyOneStepEarlier(s4, FollowUp(4), later, delay);
    ReachesPromptlyOneStepEarlier(s3, CountFailure(4), later, delay);
    ReachesPromptlyOneStepEarlier(s2, CountFailure(3), later, delay);
    ReachesPromptlyOneStepEarlier(s1, CountFailure(2), later, delay);
    ReachesPromptlyOneStepEarlier(s, CountFailure(1), later, delay);
  }

  /** The bound is exact for every delay, zero included: a run in which nobody is further behind and
      in which five failures open the circuit although they lie one millisecond less than 300 s and the
      delay apart. An EXPIRE that is merely late stretches the five minutes. */
  lemma LateExpireStretchesTheWindow(start: State, delay: nat) returns (later: State)
    requires Init(start)
    ensures ReachesPromptly(start, later, delay)
    ensures |later.openings| == 1 && |later.openings[0].failures| == 5
    ensures later.openings[0].failures[4].at - later.openings[0].failures[0].at == 300000 + delay - 1
  {
    var s1 := Do(start, CountFailure(0));
    var s2 := Do(s1, Tick(delay));
    var s3 := Do(s2, FollowUp(0));
    var s4 := Do(s3, Tick(WINDOW_MS - 1));
    later := FourMoreOpen(s4, delay);
    ReachesPromptlyOneStepEarlier(s3, Tick(WINDOW_MS - 1), later, delay);
    ReachesPromptlyOneStepEarlier(s2, FollowUp(0), later, delay);
    ReachesPromptlyOneStepEarlier(s1, Tick(delay), later, delay);
    ReachesPromptlyOneStepEarlier(start, CountFailure(0), later, delay);
  }
}
