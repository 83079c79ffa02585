/** What an undisturbed handling of a message comes to: every pending message can be fetched, and the
    handler settles it in the way that the message and the receiver's answers call for. */
module WorkerProgress {
  import opened Worker

  ghost predicate Reaches(s: State, later: State) {
    exists events :: Run(s, events) && Exec(s, events) == later
  }

  lemma ReachesOneStepEarlier(s: State, e: Event, later: State)
    requires Enabled(s, e) && (Do(s, e) == later || Reaches(Do(s, e), later))
    ensures Reaches(s, later)
  {
    var next := Do(s, e);
    assert Run(next, []) && Exec(next, []) == next;
    var events :| Run(next, events) && Exec(next, events) == later;
    assert ([e] + events)[1..] == events;
    assert Run(s, [e] + events) && Exec(s, [e] + events) == later;
  }

  predicate Accepts(contact: Contact) {
    contact.Answered? && 200 <= contact.status < 300
  }

  /** The receiver accepts one of these attempts. */
  predicate AnyAccepts(contacts: seq<Contact>) {
    exists i | 0 <= i < |contacts| :: Accepts(contacts[i])
  }

  /** The message is pending no more; it has been settled like this. */
  predicate IsSettled(s: State, id: nat, how: Settlement) {
    id !in s.pending && id in s.settled && s.settled[id] == how
  }

  /** A handler in the middle of a wanted message. */
  predicate Dispatches(s: State, task: nat, id: nat) {
    && task in s.tasks && s.tasks[task].message == id && s.tasks[task].handler.Dispatching?
    && id in s.published && id in s.pending
  }

  lemma AckSettles(s: State, task: nat)
    requires Enabled(s, Ack(task, false)) && s.tasks[task].message in s.pending
    ensures Reaches(s, Do(s, Ack(task, false)))
    ensures IsSettled(Do(s, Ack(task, false)), s.tasks[task].message, s.tasks[task].handler.reason)
    ensures Do(s, Ack(task, false)).deadLetters == s.deadLetters
  {
    ReachesOneStepEarlier(s, Ack(task, false), Do(s, Ack(task, false)));
  }

  /** Giving up copies the message to the dead-letter subject, once, before it is acknowledged. */
  lemma GivingUpSettles(s: State, task: nat, id: nat) returns (later: State)
    requires Dispatches(s, task, id) && Enabled(s, GiveUp(task))
    ensures Reaches(s, later) && IsSettled(later, id, AckedDeadLetter)
    ensures later.deadLetters == s.deadLetters + multiset{id}
  {
    var s1 := Do(s, GiveUp(task));
    var s2 := Do(s1, PublishDeadLetter(task, false));
    later := Do(s2, Ack(task, false));
    AckSettles(s2, task);
    ReachesOneStepEarlier(s1, PublishDeadLetter(task, false), later);
    ReachesOneStepEarlier(s, GiveUp(task), later);
  }

  /** The attempts go on exactly until the receiver accepts one or the maximum is reached. */
  lemma {:induction false} DispatchSettles(s: State, task: nat, id: nat, contacts: seq<Contact>) returns (later: State)
    requires Dispatches(s, task, id) && !s.published[id].oversized
    requires |s.tasks[task].handler.rows| + |contacts| == s.maximum
    ensures Reaches(s, later)
    ensures IsSettled(later, id, if AnyAccepts(contacts) then AckedDelivered else AckedDeadLetter)
    ensures later.deadLetters == if AnyAccepts(contacts) then s.deadLetters else s.deadLetters + multiset{id}
    decreases |contacts|
  {
    if contacts == [] {
      later := GivingUpSettles(s, task, id);
    } else {
      var e := Event.Attempt(task, contacts[0]);
      var next := Do(s, e);
      if Accepts(contacts[0]) {
        AckSettles(next, task);
        later := Do(next, Ack(task, false));
      } else {
        assert AnyAccepts(contacts) <==> AnyAccepts(contacts[1..]) by {
          assert forall i | 0 < i < |contacts| :: contacts[i] == contacts[1..][i - 1];
        }
        later := DispatchSettles(next, task, id, contacts[1..]);
      }
      ReachesOneStepEarlier(s, e, later);
    }
  }

  /** How a message has to be settled. */
  function Fate(message: Message, wanted: bool, contacts: seq<Contact>): Settlement {
    if message.malformed then Terminated
    else if !wanted then AckedUnwanted
    else if !message.oversized && AnyAccepts(contacts) then AckedDelivered
    else AckedDeadLetter
  }

  /** A pending message, first fetched or redelivered, is settled by any handler that is not disturbed:
      terminated if it is malformed, acknowledged without a delivery if no webhook wants it, and
      otherwise delivered if one of the attempts is accepted and copied to the dead-letter subject,
      once, if none is or its payload is too large. */
  lemma PendingMessagesAreSettled(s: State, id: nat, task: nat, wanted: bool, contacts: seq<Contact>)
    returns (later: State)
    requires Inv(s) && id in s.pending && task !in s.tasks && |contacts| == s.maximum
    ensures Reaches(s, later) && IsSettled(later, id, Fate(s.published[id], wanted, contacts))
    ensures later.deadLetters ==
            if Fate(s.published[id], wanted, contacts).AckedDeadLetter? then s.deadLetters + multiset{id}
            else s.deadLetters
  {
    var message := s.published[id];
    var s1 := Do(s, Fetch(task, id));
    if message.malformed {
      later := Do(s1, Terminate(task));
      ReachesOneStepEarlier(s1, Terminate(task), later);
    } else {
      var s2 := Do(s1, Lookup(task, wanted));
      if !wanted {
        later := Do(s2, Ack(task, false));
        AckSettles(s2, task);
      } else if message.oversized {
        later := GivingUpSettles(s2, task, id);
      } else {
        later := DispatchSettles(s2, task, id, contacts);
      }
      ReachesOneStepEarlier(s1, Lookup(task, wanted), later);
    }
    ReachesOneStepEarlier(s, Fetch(task, id), later);
  }
}
