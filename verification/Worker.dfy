/** Webhook delivery: how one message is settled and what that leaves behind, then all runs of any
    number of workers over a queue that redelivers whatever has not been settled. */
module Worker {
  import opened Store
  import opened Powers

  /** A row of the delivery log. */
  datatype Row = Row(attempt: nat, status: Option<int>, success: bool)

  /** What one attempt meets: the address or the secret is rejected, the exchange fails, or the
      receiver answers. */
  datatype Contact = Refused | ExchangeFails | Answered(status: int)

  /** The exchange of one attempt and how the write of its row ends. Unless that is with a reply, the
      attempt raises, and the row may be there or not. */
  datatype Exchange = Exchange(contact: Contact, write: Outcome)

  function RowFor(contact: Contact, attempt: nat): Row {
    match contact
    case Refused => Row(attempt, None, false)
    case ExchangeFails => Row(attempt, None, false)
    case Answered(status) => Row(attempt, Some(status), 200 <= status < 300)
  }

  /** An answer from 200 to 299. */
  predicate Accepted(row: Row) {
    row.status.Some? && 200 <= row.status.value <= 299
  }

  /** Rows of one dispatch: numbered from 1, at most `limit`, successes exactly where the receiver has
      accepted, all but the last failed. */
  predicate RowsOk(rows: seq<Row>, limit: nat) {
    && |rows| <= limit
    && (forall i | 0 <= i < |rows| :: rows[i].attempt == i + 1 && (rows[i].success <==> Accepted(rows[i])))
    && (forall i | 0 <= i < |rows| - 1 :: !rows[i].success)
  }

  predicate Delivered(rows: seq<Row>) {
    rows != [] && rows[|rows| - 1].success
  }

  /** The seconds slept after a failed attempt. */
  function Pause(attempt: nat): nat {
    if attempt >= 5 then 30 else Pow2(attempt)
  }

  lemma PauseIsCappedDoubling(attempt: nat)
    ensures Pause(attempt) == if Pow2(attempt) <= 30 then Pow2(attempt) else 30
  {
    if attempt >= 5 {
      Pow2Grows(5, attempt);
      assert Pow2(5) == 32;
    } else {
      Pow2Grows(attempt, 4);
      assert Pow2(4) == 16;
    }
  }

  /** The pauses between `n` attempts. */
  function Pauses(n: nat): nat {
    if n <= 1 then 0 else Pauses(n - 1) + Pause(n - 1)
  }

  class DeliveryLog {
    var rows: seq<Row>
    var slept: nat

    constructor ()
      ensures rows == [] && slept == 0
    {
      rows, slept := [], 0;
    }

    /** None when the write of the row raises. */
    method DeliverOnce(attempted: Exchange, number: nat) returns (ok: Option<bool>)
      modifies this`rows
      ensures ok == if attempted.write.Replied? then Some(RowFor(attempted.contact, number).success) else None
      ensures rows == if attempted.write.NotReached? then old(rows) else old(rows) + [RowFor(attempted.contact, number)]
      ensures ok.None? <==> !attempted.write.Replied?
      ensures ok == Some(true) <==>
              attempted.write.Replied? && attempted.contact.Answered? && 200 <= attempted.contact.status < 300
      ensures !attempted.write.NotReached? ==>
              rows == old(rows) + [match attempted.contact
                                   case Answered(status) => Row(number, Some(status), 200 <= status < 300)
                                   case _ => Row(number, None, false)]
    {
      var status: Option<int> := None;
      var success := false;
      match attempted.contact {
        case Answered(code) => status, success := Some(code), 200 <= code < 300;
        case Refused =>
        case ExchangeFails =>
      }
      if attempted.write.NotReached? {
        return None;
      }
      rows := rows + [Row(number, status, success)];
      ok := if attempted.write.Replied? then Some(success) else None;
    }

    /** One more attempt of a dispatch that has left the rows `added` so far, and `more` afterwards. */
    method TryAgain(attempts: seq<Exchange>, tried: nat, ghost added: seq<Row>)
      returns (ok: Option<bool>, ghost more: seq<Row>)
      requires FailedSoFar(attempts, added, tried) && tried < |attempts|
      modifies this`rows
      ensures forall before: seq<Row> :: old(rows) == before + added ==> rows == before + more
      ensures RowsFollow(attempts, more) && RowsOk(more, |attempts|)
      ensures match ok
              case None => RaisedAfter(attempts, more, tried + 1)
              case Some(true) => CompletedAfter(attempts, more, tried + 1, true, false)
              case Some(false) => FailedSoFar(attempts, more, tried + 1)
    {
      var attempted := attempts[tried];
      OneMoreAttempt(attempts, added, tried);
      ok := DeliverOnce(attempted, tried + 1);
      more := if attempted.write.NotReached? then added else added + [RowFor(attempted.contact, tried + 1)];
    }

    /** A dispatch adds rows numbered 1 to k with k at most the maximum, all but the last failed.
        If it completes, it reports delivery exactly when the last of them is a success, gives up
        only after the maximum, and adds no row at all exactly when the payload is too large or no
        attempt is allowed. It raises exactly at the first write that is not confirmed, whose row is
        missing or is the last one. Between one attempt and the next (`tried` counts them) it pauses. */
    method Dispatch(oversized: bool, attempts: seq<Exchange>, maximum: nat)
      returns (delivered: Option<bool>, ghost tried: nat)
      requires |attempts| == maximum
      modifies this
      ensures old(rows) <= rows
      ensures var added := rows[|old(rows)|..];
              && RowsOk(added, maximum) && RowsFollow(attempts, added)
              && match delivered
                 case Some(result) => CompletedAfter(attempts, added, tried, result, oversized)
                 case None => !oversized && RaisedAfter(attempts, added, tried)
      ensures slept == old(slept) + Pauses(tried)
    {
      tried := 0;
      if oversized {
        return Some(false), 0;
      }
      ghost var added: seq<Row> := [];
      for number := 1 to maximum + 1
        invariant rows == old(rows) + added
        invariant tried == number - 1 && FailedSoFar(attempts, added, tried)
        invariant slept == old(slept) + if number <= maximum then Pauses(number) else Pauses(tried)
      {
        var ok, more := TryAgain(attempts, number - 1, added);
        tried, added := number, more;
        Appended(old(rows), added);
        if ok.None? {
          return None, tried;
        }
        if ok.value {
          return Some(true), tried;
        }
        if number < maximum {
          slept := slept + Pause(number);
        }
      }
      Appended(old(rows), added);
      delivered := Some(false);
    }
  }

  /** Each row carries what its attempt has met. */
  predicate RowsFollow(attempts: seq<Exchange>, added: seq<Row>) {
    && |added| <= |attempts|
    && forall i | 0 <= i < |added| ::
         && added[i] == RowFor(attempts[i].contact, i + 1)
         && added[i].status == if attempts[i].contact.Answered? then Some(attempts[i].contact.status) else None
  }

  lemma Appended(rows: seq<Row>, added: seq<Row>)
    ensures rows <= rows + added && (rows + added)[|rows|..] == added
  {
  }

  predicate AllFailed(rows: seq<Row>) {
    forall i | 0 <= i < |rows| :: !rows[i].success
  }

  predicate AllConfirmed(attempts: seq<Exchange>, n: nat)
    requires n <= |attempts|
  {
    forall i | 0 <= i < n :: attempts[i].write.Replied?
  }

  /** The first `tried` attempts have failed and left their rows. */
  predicate FailedSoFar(attempts: seq<Exchange>, added: seq<Row>, tried: nat) {
    && tried == |added| && RowsFollow(attempts, added) && RowsOk(added, |attempts|)
    && AllFailed(added) && AllConfirmed(attempts, tried)
  }

  predicate CompletedAfter(attempts: seq<Exchange>, added: seq<Row>, tried: nat, result: bool, oversized: bool) {
    && tried == |added| <= |attempts| && AllConfirmed(attempts, tried) && result == Delivered(added)
    && (!result && !oversized ==> |added| == |attempts|)
    && (added == [] <==> oversized || |attempts| == 0)
  }

  lemma OneMoreAttempt(attempts: seq<Exchange>, added: seq<Row>, tried: nat)
    requires FailedSoFar(attempts, added, tried) && tried < |attempts|
    ensures var row := RowFor(attempts[tried].contact, tried + 1);
            var more := added + [row];
            && RowsFollow(attempts, more) && RowsOk(more, |attempts|)
            && match attempts[tried].write
               case NotReached => RaisedAfter(attempts, added, tried + 1)
               case ReplyLost => RaisedAfter(attempts, more, tried + 1)
               case Replied =>
                 if row.success then CompletedAfter(attempts, more, tried + 1, true, false)
                 else FailedSoFar(attempts, more, tried + 1)
  {
  }

  /** The last attempt is the first whose write is not confirmed; its row is there only if that write
      has lost its reply. */
  predicate RaisedAfter(attempts: seq<Exchange>, added: seq<Row>, tried: nat) {
    && 1 <= tried <= |attempts| && AllConfirmed(attempts, tried - 1)
    && match attempts[tried - 1].write
       case Replied => false
       case ReplyLost => |added| == tried
       case NotReached => |added| == tried - 1 && AllFailed(added)
  }

  // Runs of many workers over the queue.

  /** An outbound message; a malformed one cannot be read as an envelope. */
  datatype Message = Message(malformed: bool, oversized: bool)

  /** Why a message left the queue. */
  datatype Settlement = Terminated | AckedUnwanted | AckedDelivered | AckedDeadLetter

  /** Where a handler of a message stands. `Publishing` has failed to deliver and is about to
      copy the message to the dead-letter subject, `Acking` has only its last step to do. */
  datatype Handler =
    | Fetched
    | Dispatching(rows: seq<Row>)
    | Publishing(rows: seq<Row>)
    | Acking(reason: Settlement)
    | Gone

  datatype Task = Task(message: nat, handler: Handler)

  /** `unwanted` and `deadLetters` hold the messages found without a willing webhook and those
      copied to the dead-letter subject, `completed` the rows of every completed dispatch. */
  datatype State = State(
    maximum: nat,
    published: map<nat, Message>,
    pending: set<nat>,
    settled: map<nat, Settlement>,
    tasks: map<nat, Task>,
    unwanted: set<nat>,
    accepted: set<nat>,
    deadLetters: multiset<nat>,
    completed: seq<(nat, seq<Row>)>)

  /** `Vanish` ends a handler anywhere: a crash, or an error such as a row whose
      write is not confirmed. Such an attempt leaves no trace here, whatever the receiver answered. */
  datatype Event =
    | Publish(id: nat, message: Message)
    | Fetch(task: nat, id: nat)
    | Terminate(task: nat)
    | Lookup(task: nat, wanted: bool)
    | Attempt(task: nat, contact: Contact)
    | GiveUp(task: nat)
    | PublishDeadLetter(task: nat, replyLost: bool)
    | Ack(task: nat, replyLost: bool)
    | Vanish(task: nat)

  predicate Enabled(s: State, e: Event) {
    match e
    case Publish(id, _) => id !in s.published
    case Fetch(task, id) => task !in s.tasks && id in s.pending
    case _ =>
      && e.task in s.tasks && s.tasks[e.task].message in s.published
      && var t := s.tasks[e.task];
         var m := s.published[t.message];
         match e
         case Terminate(_) => t.handler.Fetched? && m.malformed
         case Lookup(_, _) => t.handler.Fetched? && !m.malformed
         case Attempt(_, _) => t.handler.Dispatching? && !m.oversized && |t.handler.rows| < s.maximum
         case GiveUp(_) => t.handler.Dispatching? && (m.oversized || |t.handler.rows| == s.maximum)
         case PublishDeadLetter(_, _) => t.handler.Publishing?
         case Ack(_, _) => t.handler.Acking?
         case _ => true
  }

  function Move(s: State, task: nat, handler: Handler): State
    requires task in s.tasks
  {
    s.(tasks := s.tasks[task := Task(s.tasks[task].message, handler)])
  }

  /** Settling a message that is already settled changes nothing. */
  function Settle(s: State, id: nat, how: Settlement): State {
    if id in s.pending then s.(pending := s.pending - {id}, settled := s.settled[id := how]) else s
  }

  function Do(s: State, e: Event): State
    requires Enabled(s, e)
  {
    match e
    case Publish(id, message) => s.(published := s.published[id := message], pending := s.pending + {id})
    case Fetch(task, id) => s.(tasks := s.tasks[task := Task(id, Fetched)])
    case Terminate(task) => Move(Settle(s, s.tasks[task].message, Terminated), task, Gone)
    case Lookup(task, wanted) =>
      if wanted then Move(s, task, Dispatching([]))
      else Move(s.(unwanted := s.unwanted + {s.tasks[task].message}), task, Acking(AckedUnwanted))
    case Attempt(task, contact) =>
      var rows := s.tasks[task].handler.rows + [RowFor(contact, |s.tasks[task].handler.rows| + 1)];
      var id := s.tasks[task].message;
      if RowFor(contact, |rows|).success then
        Move(s.(accepted := s.accepted + {id}, completed := s.completed + [(id, rows)]), task, Acking(AckedDelivered))
      else Move(s, task, Dispatching(rows))
    case GiveUp(task) =>
      var rows := s.tasks[task].handler.rows;
      Move(s.(completed := s.completed + [(s.tasks[task].message, rows)]), task, Publishing(rows))
    case PublishDeadLetter(task, replyLost) =>
      Move(s.(deadLetters := s.deadLetters + multiset{s.tasks[task].message}), task,
           if replyLost then Gone else Acking(AckedDeadLetter))
    case Ack(task, replyLost) =>
      Move(if replyLost then s else Settle(s, s.tasks[task].message, s.tasks[task].handler.reason), task, Gone)
    case Vanish(task) => Move(s, task, Gone)
  }

  predicate Run(s: State, events: seq<Event>)
    decreases |events|
  {
    events == [] || (Enabled(s, events[0]) && Run(Do(s, events[0]), events[1..]))
  }

  function Exec(s: State, events: seq<Event>): State
    requires Run(s, events)
    decreases |events|
  {
    if events == [] then s else Exec(Do(s, events[0]), events[1..])
  }

  predicate Init(s: State) {
    && s.published == map[] && s.pending == {} && s.settled == map[] && s.tasks == map[]
    && s.unwanted == {} && s.accepted == {} && s.deadLetters == multiset{} && s.completed == []
  }

  /** The reason that justifies settling a message in this way. */
  predicate Justified(s: State, id: nat, how: Settlement) {
    match how
    case Terminated => id in s.published && s.published[id].malformed
    case AckedUnwanted => id in s.unwanted
    case AckedDelivered => id in s.accepted
    case AckedDeadLetter => id in s.deadLetters
  }

  /** Every published message is pending or settled, never both, and nothing else is. */
  predicate Accounted(s: State) {
    s.pending + s.settled.Keys == s.published.Keys && s.pending !! s.settled.Keys
  }

  /** A dispatch of message `id` has been completed with the given result. */
  ghost predicate Completed(s: State, id: nat, delivered: bool) {
    exists i :: 0 <= i < |s.completed| && s.completed[i].0 == id && Delivered(s.completed[i].1) == delivered
  }

  ghost predicate TaskOk(s: State, t: Task) {
    && t.message in s.published
    && match t.handler
       case Dispatching(rows) =>
         RowsOk(rows, s.maximum) && !Delivered(rows) && (s.published[t.message].oversized ==> rows == [])
       case Publishing(rows) => Completed(s, t.message, false)
       case Acking(how) => Justified(s, t.message, how) && !how.Terminated?
       case _ => true
  }

  /** A completed dispatch has good rows. It has given up only after the maximum of attempts, or
      without any for a payload that is too large. */
  ghost predicate DispatchOk(s: State, id: nat, rows: seq<Row>) {
    && id in s.published && RowsOk(rows, s.maximum)
    && (!Delivered(rows) ==> |rows| == if s.published[id].oversized then 0 else s.maximum)
  }

  ghost predicate TasksOk(s: State) {
    forall t <- s.tasks :: TaskOk(s, s.tasks[t])
  }

  ghost predicate ReasonsOk(s: State) {
    forall id <- s.settled :: Justified(s, id, s.settled[id])
  }

  ghost predicate DispatchesOk(s: State) {
    && (forall i | 0 <= i < |s.completed| :: DispatchOk(s, s.completed[i].0, s.completed[i].1))
    && (forall id <- s.accepted :: Completed(s, id, true))
    && (forall id <- s.deadLetters :: Completed(s, id, false))
  }

  ghost predicate Inv(s: State) {
    Accounted(s) && TasksOk(s) && ReasonsOk(s) && DispatchesOk(s)
  }

  /** Reasons and completed dispatches only accumulate. */
  ghost predicate Grows(s: State, later: State) {
    && later.maximum == s.maximum
    && (forall id <- s.published :: id in later.published && later.published[id] == s.published[id])
    && s.unwanted <= later.unwanted && s.accepted <= later.accepted && s.deadLetters <= later.deadLetters
    && s.completed <= later.completed
  }

  lemma StepGrows(s: State, e: Event)
    requires Enabled(s, e)
    ensures Grows(s, Do(s, e))
  {
  }

  lemma CompletedStays(s: State, later: State, id: nat, delivered: bool)
    requires Grows(s, later) && Completed(s, id, delivered)
    ensures Completed(later, id, delivered)
  {
    var i :| 0 <= i < |s.completed| && s.completed[i].0 == id && Delivered(s.completed[i].1) == delivered;
    assert later.completed[i] == s.completed[i];
  }

  lemma TaskOkStays(s: State, later: State, t: Task)
    requires Grows(s, later) && TaskOk(s, t)
    ensures TaskOk(later, t)
  {
    if t.handler.Publishing? {
      CompletedStays(s, later, t.message, false);
    }
  }

  lemma AttemptedTaskOk(s: State, task: nat, contact: Contact)
    requires Inv(s) && Enabled(s, Event.Attempt(task, contact))
    ensures TaskOk(Do(s, Event.Attempt(task, contact)), Do(s, Event.Attempt(task, contact)).tasks[task])
  {
    assert TaskOk(s, s.tasks[task]);
  }

  lemma GivenUpTaskOk(s: State, task: nat)
    requires Inv(s) && Enabled(s, GiveUp(task))
    ensures TaskOk(Do(s, GiveUp(task)), Do(s, GiveUp(task)).tasks[task])
  {
    assert TaskOk(s, s.tasks[task]);
    var later := Do(s, GiveUp(task));
    assert later.completed[|s.completed|] == (s.tasks[task].message, s.tasks[task].handler.rows);
  }

  lemma MovedTaskOk(s: State, e: Event)
    requires Inv(s) && Enabled(s, e) && !e.Publish? && !e.Fetch?
    ensures TaskOk(Do(s, e), Do(s, e).tasks[e.task])
  {
    assert TaskOk(s, s.tasks[e.task]);
    match e
    case Attempt(task, contact) => AttemptedTaskOk(s, task, contact);
    case GiveUp(task) => GivenUpTaskOk(s, task);
    case _ =>
  }

  lemma TasksStep(s: State, e: Event)
    requires Inv(s) && Enabled(s, e)
    ensures TasksOk(Do(s, e))
  {
    var later := Do(s, e);
    StepGrows(s, e);
    forall t <- later.tasks
      ensures TaskOk(later, later.tasks[t])
    {
      if t in s.tasks && later.tasks[t] == s.tasks[t] {
        TaskOkStays(s, later, s.tasks[t]);
      } else if !e.Fetch? {
        MovedTaskOk(s, e);
      }
    }
  }

  lemma RowsStep(s: State, e: Event)
    requires Inv(s) && Enabled(s, e)
    ensures var later := Do(s, e);
            forall i | 0 <= i < |later.completed| :: DispatchOk(later, later.completed[i].0, later.completed[i].1)
  {
    var later := Do(s, e);
    StepGrows(s, e);
    if e.Attempt? || e.GiveUp? {
      assert TaskOk(s, s.tasks[e.task]);
    }
    forall i | 0 <= i < |later.completed|
      ensures DispatchOk(later, later.completed[i].0, later.completed[i].1)
    {
      if i < |s.completed| {
        assert later.completed[i] == s.completed[i];
        assert DispatchOk(s, s.completed[i].0, s.completed[i].1);
      }
    }
  }

  lemma AcceptedStep(s: State, e: Event)
    requires Inv(s) && Enabled(s, e)
    ensures forall id <- Do(s, e).accepted :: Completed(Do(s, e), id, true)
  {
    var later := Do(s, e);
    StepGrows(s, e);
    forall id <- later.accepted
      ensures Completed(later, id, true)
    {
      if id in s.accepted {
        CompletedStays(s, later, id, true);
      } else {
        assert later.completed[|s.completed|].0 == id;
      }
    }
  }

  lemma DeadLetterStep(s: State, e: Event)
    requires Inv(s) && Enabled(s, e)
    ensures forall id <- Do(s, e).deadLetters :: Completed(Do(s, e), id, false)
  {
    var later := Do(s, e);
    StepGrows(s, e);
    if e.PublishDeadLetter? {
      assert TaskOk(s, s.tasks[e.task]);
    }
    forall id <- later.deadLetters
      ensures Completed(later, id, false)
    {
      CompletedStays(s, later, id, false);
    }
  }

  predicate SameQueue(s: State, later: State) {
    later.pending == s.pending && later.settled == s.settled && later.published == s.published
  }

  predicate OnePublished(s: State, later: State, id: nat) {
    && id !in s.published && later.published.Keys == s.published.Keys + {id}
    && later.pending == s.pending + {id} && later.settled == s.settled
  }

  predicate OneSettled(s: State, later: State, id: nat, how: Settlement) {
    && id in s.pending && later.published == s.published
    && later.pending == s.pending - {id} && later.settled == s.settled[id := how]
  }

  lemma SettlingChange(s: State, e: Event)
    requires Inv(s) && Enabled(s, e) && (e.Terminate? || e.Ack?)
    ensures || SameQueue(s, Do(s, e))
            || exists id, how :: OneSettled(s, Do(s, e), id, how) && Justified(s, id, how)
  {
    var t := s.tasks[e.task];
    assert TaskOk(s, t);
    var how := if e.Terminate? then Terminated else t.handler.reason;
    assert Justified(s, t.message, how);
    assert SameQueue(s, Do(s, e)) || OneSettled(s, Do(s, e), t.message, how);
  }

  /** How the queue itself may change in one step. */
  lemma QueueChange(s: State, e: Event)
    requires Inv(s) && Enabled(s, e)
    ensures var later := Do(s, e);
            || SameQueue(s, later)
            || (e.Publish? && OnePublished(s, later, e.id))
            || exists id, how :: OneSettled(s, later, id, how) && Justified(s, id, how)
  {
    if e.Terminate? || e.Ack? {
      SettlingChange(s, e);
    } else if e.Publish? {
      assert e.id !in s.published;
    } else {
      assert SameQueue(s, Do(s, e));
    }
  }

  lemma QueueStep(s: State, e: Event)
    requires Inv(s) && Enabled(s, e)
    ensures Accounted(Do(s, e)) && ReasonsOk(Do(s, e))
  {
    var later := Do(s, e);
    StepGrows(s, e);
    QueueChange(s, e);
    forall id <- later.settled
      ensures Justified(later, id, later.settled[id])
    {
      JustifiedStays(s, later, id, later.settled[id]);
    }
    AccountedStays(s, later);
  }

  lemma JustifiedStays(s: State, later: State, id: nat, how: Settlement)
    requires Grows(s, later) && Justified(s, id, how)
    ensures Justified(later, id, how)
  {
  }

  lemma AccountedStays(s: State, later: State)
    requires Accounted(s)
    requires || SameQueue(s, later)
             || (exists id :: OnePublished(s, later, id))
             || (exists id, how :: OneSettled(s, later, id, how))
    ensures Accounted(later)
  {
  }

  lemma {:induction false} RunKeeps(s: State, events: seq<Event>)
    requires Inv(s) && Run(s, events)
    ensures Inv(Exec(s, events))
    decreases |events|
  {
    if events != [] {
      TasksStep(s, events[0]);
      RowsStep(s, events[0]);
      AcceptedStep(s, events[0]);
      DeadLetterStep(s, events[0]);
      QueueStep(s, events[0]);
      RunKeeps(Do(s, events[0]), events[1..]);
    }
  }

  /** A dispatch of message `id` has been completed after these rows. */
  predicate Dispatched(s: State, id: nat, rows: seq<Row>) {
    exists i | 0 <= i < |s.completed| :: s.completed[i] == (id, rows)
  }

  lemma CompletedRows(s: State, id: nat, delivered: bool) returns (rows: seq<Row>)
    requires DispatchesOk(s) && Completed(s, id, delivered)
    ensures Dispatched(s, id, rows) && RowsOk(rows, s.maximum) && Delivered(rows) == delivered
    ensures delivered ==> rows != [] && Accepted(rows[|rows| - 1])
    ensures !delivered ==> forall row <- rows :: !Accepted(row)
  {
    var i :| 0 <= i < |s.completed| && s.completed[i].0 == id && Delivered(s.completed[i].1) == delivered;
    rows := s.completed[i].1;
    assert DispatchOk(s, id, rows) && s.completed[i] == (id, rows);
  }

  /** No message is lost, over any run of publishing, fetching, crashing and redelivering: each
      one is still pending or has been settled, and settled only for a reason. A terminated one
      was malformed. An acknowledged one had no willing webhook at lookup, or a dispatch that
      ended in an answer from 200 to 299, or a dispatch without any such answer and a copy on the
      dead-letter subject. */
  lemma NothingIsLost(start: State, events: seq<Event>)
    requires Init(start) && Run(start, events)
    ensures var s := Exec(start, events);
            && (forall id <- s.published :: id in s.pending <==> id !in s.settled)
            && (forall id <- s.settled ::
                  match s.settled[id]
                  case Terminated => id in s.published && s.published[id].malformed
                  case AckedUnwanted => id in s.unwanted
                  case AckedDelivered =>
                    exists rows :: Dispatched(s, id, rows) && rows != [] && Accepted(rows[|rows| - 1])
                  case AckedDeadLetter =>
                    && id in s.deadLetters
                    && exists rows :: Dispatched(s, id, rows) && forall row <- rows :: !Accepted(row))
  {
    RunKeeps(start, events);
    var s := Exec(start, events);
    forall id <- s.settled | s.settled[id].AckedDelivered? || s.settled[id].AckedDeadLetter?
      ensures s.settled[id].AckedDelivered? ==>
                exists rows :: Dispatched(s, id, rows) && rows != [] && Accepted(rows[|rows| - 1])
      ensures s.settled[id].AckedDeadLetter? ==>
                exists rows :: Dispatched(s, id, rows) && forall row <- rows :: !Accepted(row)
    {
      assert Justified(s, id, s.settled[id]);
      var rows := CompletedRows(s, id, s.settled[id].AckedDelivered?);
    }
  }

  /** Every completed dispatch has left rows numbered 1 to k, with k at most the maximum, of which
      all but the last failed; a row is a success exactly for an answer from 200 to 299. Without a success
      k is the maximum, or 0 for a payload that is too large. */
  lemma DispatchesLeaveGoodRows(start: State, events: seq<Event>)
    requires Init(start) && Run(start, events)
    ensures var s := Exec(start, events);
            forall i | 0 <= i < |s.completed| ::
              var (id, rows) := s.completed[i];
              && |rows| <= s.maximum
              && (forall k | 0 <= k < |rows| ::
                    && rows[k].attempt == k + 1 && (rows[k].success ==> k == |rows| - 1)
                    && (rows[k].success <==> rows[k].status.Some? && 200 <= rows[k].status.value <= 299))
              && (!Delivered(rows) ==>
                    id in s.published && |rows| == if s.published[id].oversized then 0 else s.maximum)
  {
    RunKeeps(start, events);
    var s := Exec(start, events);
    forall i | 0 <= i < |s.completed|
      ensures DispatchOk(s, s.completed[i].0, s.completed[i].1)
    {
      assert DispatchesOk(s);
    }
  }
}
