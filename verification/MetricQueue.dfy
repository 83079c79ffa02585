/** The bounded queue between the request handlers and the metrics writer, and the writer's
    rounds: gather a batch, write it, settle it. */
module MetricQueue {
  import opened Store
  import opened Analytics

  /** A batch the writer is done with, and whether it was written. */
  datatype Round = Round(batch: seq<Metric>, written: bool)

  /** `offered` and `dropped` count metrics, `accepted` lists those that entered the queue and
      `rounds` what the writer is done with, both in order. */
  datatype Pipe = Pipe(
    capacity: nat,
    batchSize: nat,
    queue: seq<Metric>,
    batch: seq<Metric>,
    unfinished: nat,
    table: Table,
    offered: nat,
    dropped: nat,
    accepted: seq<Metric>,
    rounds: seq<Round>)

  datatype Event =
    | Offer(metric: Metric)
    | Take
    | Flush(committed: bool)

  function Settled(rounds: seq<Round>): seq<Metric> {
    if rounds == [] then [] else Settled(rounds[..|rounds| - 1]) + rounds[|rounds| - 1].batch
  }

  function Written(rounds: seq<Round>): seq<Metric> {
    if rounds == [] then []
    else
      var last := rounds[|rounds| - 1];
      Written(rounds[..|rounds| - 1]) + (if last.written then last.batch else [])
  }

  function Lost(rounds: seq<Round>): nat {
    if rounds == [] then 0
    else
      var last := rounds[|rounds| - 1];
      Lost(rounds[..|rounds| - 1]) + (if last.written then 0 else |last.batch|)
  }

  /** A batch never grows beyond its limit, and only a batch with something in it is flushed. */
  predicate Enabled(p: Pipe, e: Event) {
    match e
    case Offer(_) => true
    case Take => p.queue != [] && (p.batch == [] || |p.batch| < p.batchSize)
    case Flush(_) => p.batch != []
  }

  function Do(p: Pipe, e: Event): Pipe
    requires Enabled(p, e)
  {
    match e
    case Offer(m) =>
      if |p.queue| >= p.capacity then p.(offered := p.offered + 1, dropped := p.dropped + 1)
      else p.(offered := p.offered + 1, queue := p.queue + [m], unfinished := p.unfinished + 1,
          accepted := p.accepted + [m])
    case Take => p.(queue := p.queue[1..], batch := p.batch + [p.queue[0]])
    case Flush(committed) =>
      p.(table := if committed then Merge(p.table, Fold(p.batch)) else p.table,
         rounds := p.rounds + [Round(p.batch, committed)],
         unfinished := if p.unfinished >= |p.batch| then p.unfinished - |p.batch| else 0,
         batch := [])
  }

  predicate Run(p: Pipe, events: seq<Event>)
    decreases |events|
  {
    events == [] || (Enabled(p, events[0]) && Run(Do(p, events[0]), events[1..]))
  }

  function Exec(p: Pipe, events: seq<Event>): Pipe
    requires Run(p, events)
    decreases |events|
  {
    if events == [] then p else Exec(Do(p, events[0]), events[1..])
  }

  predicate Init(p: Pipe) {
    && p.batchSize >= 1
    && p.queue == [] && p.batch == [] && p.unfinished == 0
    && p.offered == 0 && p.dropped == 0 && p.accepted == [] && p.rounds == []
  }

  predicate TableOk(p: Pipe, initial: Table) {
    p.table == Merge(initial, Fold(Written(p.rounds)))
  }

  predicate Inv(p: Pipe) {
    && p.batchSize >= 1
    && p.accepted == Settled(p.rounds) + p.batch + p.queue
    && p.unfinished == |p.batch| + |p.queue|
    && |p.batch| <= p.batchSize && |p.queue| <= p.capacity
    && p.offered == p.dropped + |p.accepted|
  }

  lemma {:induction false} WrittenOrLost(rounds: seq<Round>)
    ensures |Settled(rounds)| == |Written(rounds)| + Lost(rounds)
  {
    if rounds != [] {
      WrittenOrLost(rounds[..|rounds| - 1]);
    }
  }

  lemma TableStep(p: Pipe, e: Event, initial: Table)
    requires TableOk(p, initial) && Enabled(p, e)
    ensures TableOk(Do(p, e), initial)
  {
    if e.Flush? {
      var p' := Do(p, e);
      assert p'.rounds[..|p'.rounds| - 1] == p.rounds;
      if e.committed {
        FoldSplits(Written(p.rounds), p.batch);
        MergeAssociates(initial, Fold(Written(p.rounds)), Fold(p.batch));
      } else {
        assert Written(p'.rounds) == Written(p.rounds);
      }
    }
  }

  lemma StepKeeps(p: Pipe, e: Event)
    requires Inv(p) && Enabled(p, e)
    ensures Inv(Do(p, e))
  {
    match e
    case Offer(m) =>
    case Take => assert p.queue == [p.queue[0]] + p.queue[1..];
    case Flush(committed) => assert Do(p, e).rounds[..|Do(p, e).rounds| - 1] == p.rounds;
  }

  lemma {:induction false} RunKeeps(p: Pipe, events: seq<Event>, initial: Table)
    requires Inv(p) && TableOk(p, initial) && Run(p, events)
    ensures Inv(Exec(p, events)) && TableOk(Exec(p, events), initial)
    decreases |events|
  {
    if events != [] {
      StepKeeps(p, events[0]);
      TableStep(p, events[0], initial);
      RunKeeps(Do(p, events[0]), events[1..], initial);
    }
  }

  lemma InitEstablishes(p: Pipe)
    requires Init(p)
    ensures Inv(p) && TableOk(p, p.table)
  {
    assert Merge(p.table, map[]) == p.table;
  }

  /** Over any run every metric offered is accounted for: dropped at a full queue, queued, in the
      current batch, written, or lost with a failed batch. The queue keeps the order, no batch
      exceeds its limit, and the unfinished count is what is queued or in the batch. */
  lemma EveryMetricIsAccountedFor(start: Pipe, events: seq<Event>)
    requires Init(start) && Run(start, events)
    ensures var p := Exec(start, events);
            && p.offered == p.dropped + |p.queue| + |p.batch| + |Written(p.rounds)| + Lost(p.rounds)
            && p.accepted == Settled(p.rounds) + p.batch + p.queue
            && p.unfinished == |p.batch| + |p.queue|
            && |p.batch| <= p.batchSize && |p.queue| <= p.capacity
  {
    InitEstablishes(start);
    RunKeeps(start, events, start.table);
    WrittenOrLost(Exec(start, events).rounds);
  }

  /** The bucket table is at every moment the starting table merged with the aggregate of exactly
      the metrics written so far, however they were cut into batches. */
  lemma TableShowsWhatWasWritten(start: Pipe, events: seq<Event>)
    requires Init(start) && Run(start, events)
    ensures var p := Exec(start, events); p.table == Merge(start.table, Fold(Written(p.rounds)))
  {
    InitEstablishes(start);
    RunKeeps(start, events, start.table);
  }

  /** When the join at shutdown completes, every accepted metric has been settled; and it can
      complete only then. */
  lemma JoinMeansSettled(start: Pipe, events: seq<Event>)
    requires Init(start) && Run(start, events)
    ensures var p := Exec(start, events); p.unfinished == 0 <==> p.accepted == Settled(p.rounds)
  {
    InitEstablishes(start);
    RunKeeps(start, events, start.table);
    var p := Exec(start, events);
    assert |p.accepted| == |Settled(p.rounds)| + |p.batch| + |p.queue|;
  }

  // The queue and the writer as they change their state; their runs are runs of the pipe.

  lemma {:induction false} RunsConcatenate(p: Pipe, first: seq<Event>, second: seq<Event>)
    requires Run(p, first) && Run(Exec(p, first), second)
    ensures Run(p, first + second) && Exec(p, first + second) == Exec(Exec(p, first), second)
    decreases |first|
  {
    if first == [] {
      assert first + second == second;
    } else {
      RunsConcatenate(Do(p, first[0]), first[1..], second);
      assert (first + second)[1..] == first[1..] + second;
    }
  }

  lemma RunOneMore(p: Pipe, events: seq<Event>, e: Event)
    requires Run(p, events) && Enabled(Exec(p, events), e)
    ensures Run(p, events + [e]) && Exec(p, events + [e]) == Do(Exec(p, events), e)
  {
    var last := Exec(p, events);
    var next := Do(last, e);
    assert Run(next, []) && Exec(next, []) == next;
    assert [e][1..] == [];
    assert Run(last, [e]) && Exec(last, [e]) == next;
    RunsConcatenate(p, events, [e]);
  }

  /** What happens while the writer waits for its next metric: requests offer theirs, and the
      wait ends in time or not. */
  datatype Wait = Wait(offers: seq<Metric>, timedOut: bool)

  /** From `p` to `later` no batch was settled and nothing that was accepted is forgotten. */
  predicate Gathering(p: Pipe, later: Pipe) {
    later.rounds == p.rounds && p.accepted <= later.accepted
  }

  lemma GatheredInOrder(p: Pipe, later: Pipe)
    requires Inv(p) && Inv(later) && Gathering(p, later) && p.batch == []
    ensures later.batch + later.queue == p.queue + later.accepted[|p.accepted|..]
  {
    var settled := Settled(p.rounds);
    assert later.accepted == settled + (later.batch + later.queue);
    assert later.accepted == settled + (p.queue + later.accepted[|p.accepted|..]);
    assert later.accepted[|settled|..] == later.batch + later.queue;
  }

  /** The queue and the writer's own batch; `pipe` is the state of the run so far. */
  class MetricsWriter {
    const capacity: nat
    const batchSize: nat
    var items: seq<Metric>
    var unfinished: nat
    var batch: seq<Metric>
    var table: Table
    ghost var pipe: Pipe

    ghost predicate Valid()
      reads this
    {
      && Inv(pipe)
      && pipe.capacity == capacity && pipe.batchSize == batchSize
      && pipe.queue == items && pipe.unfinished == unfinished && pipe.batch == batch && pipe.table == table
    }

    constructor (capacity: nat, batchSize: nat, table: Table)
      requires batchSize >= 1
      ensures Valid() && Init(pipe) && pipe.capacity == capacity && pipe.table == table
    {
      this.capacity, this.batchSize, this.table := capacity, batchSize, table;
      items, unfinished, batch := [], 0, [];
      pipe := Pipe(capacity, batchSize, [], [], 0, table, 0, 0, [], []);
    }

    method PutNowait(m: Metric) returns (dropped: bool)
      requires Valid()
      modifies this
      ensures Valid() && pipe == Do(old(pipe), Offer(m))
      ensures dropped <==> |old(items)| == capacity
      ensures items == if dropped then old(items) else old(items) + [m]
      ensures unfinished == if dropped then old(unfinished) else old(unfinished) + 1
      ensures pipe.offered == old(pipe).offered + 1
      ensures pipe.dropped == old(pipe).dropped + if dropped then 1 else 0
      ensures pipe.accepted == old(pipe).accepted + if dropped then [] else [m]
    {
      StepKeeps(pipe, Offer(m));
      pipe := Do(pipe, Offer(m));
      dropped := |items| >= capacity;
      if !dropped {
        items, unfinished := items + [m], unfinished + 1;
      }
    }

    method PutAll(offers: seq<Metric>) returns (ghost events: seq<Event>)
      requires Valid()
      modifies this
      ensures Valid() && Run(old(pipe), events) && pipe == Exec(old(pipe), events) && Gathering(old(pipe), pipe)
      ensures batch == old(batch)
    {
      events := [];
      for i := 0 to |offers|
        invariant Valid() && Run(old(pipe), events) && pipe == Exec(old(pipe), events) && Gathering(old(pipe), pipe)
        invariant batch == old(batch)
      {
        RunOneMore(old(pipe), events, Offer(offers[i]));
        var _ := PutNowait(offers[i]);
        events := events + [Offer(offers[i])];
      }
    }

    /** The head of the queue goes to the batch. */
    method TakeNext()
      requires Valid() && items != [] && (batch == [] || |batch| < batchSize)
      modifies this
      ensures Valid() && pipe == Do(old(pipe), Take)
      ensures |batch| == |old(batch)| + 1
    {
      StepKeeps(pipe, Take);
      pipe := Do(pipe, Take);
      batch, items := batch + [items[0]], items[1..];
    }

    /** One wait for the next metric: it gets one unless it times out or nothing is there. */
    method Await(wait: Wait) returns (got: bool, ghost events: seq<Event>)
      requires Valid() && 1 <= |batch| < batchSize
      modifies this
      ensures Valid() && Run(old(pipe), events) && pipe == Exec(old(pipe), events) && Gathering(old(pipe), pipe)
      ensures got ==> |batch| == |old(batch)| + 1 && !wait.timedOut
      ensures !got ==> |batch| == |old(batch)| && (wait.timedOut || items == [])
    {
      events := PutAll(wait.offers);
      got := !wait.timedOut && items != [];
      if got {
        RunOneMore(old(pipe), events, Take);
        TakeNext();
        events := events + [Take];
      }
    }

    /** One round of gathering: it starts with the head of the queue and stops at the batch size,
        at the deadline or when a wait times out. It is a run of the pipe, and the batch is what stood
        at the front of the queue, in order; nothing is skipped or taken twice. It ends with fewer than
        the batch size only when time is up or a wait ends without a metric (`waited` counts the
        waits, all but that one successful). */
    method GatherBatch(waits: seq<Wait>) returns (ghost events: seq<Event>, ghost waited: nat)
      requires Valid() && batch == [] && items != []
      modifies this
      ensures Valid() && Run(old(pipe), events) && pipe == Exec(old(pipe), events) && Gathering(old(pipe), pipe)
      ensures 1 <= |batch| <= batchSize
      ensures batch + items == old(items) + pipe.accepted[|old(pipe).accepted|..]
      ensures |batch| - 1 <= waited <= |batch| && waited <= |waits|
      ensures |batch| < batchSize && waited == |batch| - 1 ==> waited == |waits|
      ensures waited == |batch| ==> waits[waited - 1].timedOut || items == []
      ensures forall j | 0 <= j < |batch| - 1 :: !waits[j].timedOut
    {
      waited := 0;
      events := [Take];
      RunOneMore(pipe, [], Take);
      TakeNext();
      var i := 0;
      while |batch| < batchSize && i < |waits|
        invariant Valid() && Run(old(pipe), events) && pipe == Exec(old(pipe), events) && Gathering(old(pipe), pipe)
        invariant 1 <= |batch| <= batchSize && waited == i == |batch| - 1 && i <= |waits|
        invariant forall j | 0 <= j < i :: !waits[j].timedOut
        decreases |waits| - i
      {
        var got, more := Await(waits[i]);
        RunsConcatenate(old(pipe), events, more);
        events := events + more;
        waited := i + 1;
        if !got {
          break;
        }
        i := i + 1;
      }
      GatheredInOrder(old(pipe), pipe);
    }

    /** The batch is written, or the write fails; it is settled in either case. A commit whose reply is
        lost has written it and is logged as a failure all the same. */
    method WriteAndSettle(commit: Outcome) returns (failureLogged: bool)
      requires Valid() && batch != []
      modifies this
      ensures Valid() && pipe == Do(old(pipe), Flush(!commit.NotReached?))
      ensures batch == [] && items == old(items) && unfinished == old(unfinished) - |old(batch)|
      ensures table == if commit.NotReached? then old(table) else Merge(old(table), Fold(old(batch)))
      ensures pipe.rounds == old(pipe).rounds + [Round(old(batch), !commit.NotReached?)]
      ensures failureLogged <==> !commit.Replied?
    {
      if !commit.NotReached? {
        var result := WriteBatch(table, batch);
        table := result.value;
      }
      failureLogged := !commit.Replied?;
      for i := 0 to |batch|
        invariant unfinished == old(unfinished) - i
        invariant pipe == old(pipe) && batch == old(batch) && items == old(items)
        invariant table == if commit.NotReached? then old(table) else Merge(old(table), Fold(batch))
      {
        unfinished := unfinished - 1;
      }
      StepKeeps(pipe, Flush(!commit.NotReached?));
      pipe := Do(pipe, Flush(!commit.NotReached?));
      batch := [];
    }
  }
}
