/** One provider request: the circuit check, up to three attempts, for each attempt the fallback
    from one client to the next, the capped read of the response, and the one entry that the
    request leaves in the failure counter. */
module Transport {
  import opened Store
  import Circuit

  const ATTEMPTS := 3

  /** How a client's attempt ends. `Unreachable` stands for ConnectError and ConnectTimeout,
      `Dropped` for the other timeouts and network errors, broken responses and 5xx replies. */
  datatype Outcome =
    | Payload(bytes: seq<bv8>)
    | Unreachable
    | ProxyFault
    | Dropped
    | Quota
    | Rejected
    | TooLarge
    | OtherFault
  {
    predicate FallsBack() {
      Unreachable? || ProxyFault?
    }

    predicate Retried() {
      Unreachable? || Dropped?
    }
  }

  /** The announced length of a body; one that is not a number makes the attempt raise. */
  datatype Announced = NoLength | Unreadable | Length(n: int)

  /** A response; if it `breaksOff`, the connection fails after the given chunks. */
  datatype Response = Response(status: int, announced: Announced, chunks: seq<seq<bv8>>, breaksOff: bool)

  function Concat(chunks: seq<seq<bv8>>): seq<bv8> {
    if chunks == [] then [] else Concat(chunks[..|chunks| - 1]) + chunks[|chunks| - 1]
  }

  lemma {:induction false} ConcatInOrder(a: seq<seq<bv8>>, b: seq<seq<bv8>>)
    ensures Concat(a + b) == Concat(a) + Concat(b)
    ensures |a| == 1 ==> Concat(a) == a[0]
    decreases |b|
  {
    if b == [] {
      assert a + b == a;
    } else {
      var n := |b| - 1;
      ConcatInOrder(a, b[..n]);
      assert (a + b)[..|a + b| - 1] == a + b[..n];
    }
  }

  lemma {:induction false} ConcatPrefixIsShorter(chunks: seq<seq<bv8>>, k: nat)
    requires k <= |chunks|
    ensures |Concat(chunks[..k])| <= |Concat(chunks)|
  {
    if k < |chunks| {
      ConcatPrefixIsShorter(chunks[..|chunks| - 1], k);
      assert chunks[..|chunks| - 1][..k] == chunks[..k];
    } else {
      assert chunks[..k] == chunks;
    }
  }

  predicate Oversized(response: Response, limit: nat) {
    || (response.announced.Length? && response.announced.n > limit)
    || (!response.announced.Unreadable? && |Concat(response.chunks)| > limit)
  }

  /** The body is handed out whole exactly when the status is below 400, neither the announced nor the
      received length exceeds the limit, although it is measured chunk by chunk, and the connection
      holds. A body that is too large counts as such even if it would have broken off later. */
  method Read(response: Response, limit: nat) returns (outcome: Outcome)
    ensures outcome.Quota? <==> response.status == 429
    ensures outcome.Rejected? <==> 400 <= response.status < 500 && response.status != 429
    ensures outcome.OtherFault? <==> response.status < 400 && response.announced.Unreadable?
    ensures outcome.TooLarge? <==> response.status < 400 && Oversized(response, limit)
    ensures outcome.Dropped? <==>
              || response.status >= 500
              || (response.status < 400 && !response.announced.Unreadable? && !Oversized(response, limit)
                 && response.breaksOff)
    ensures outcome.Payload? <==>
              && response.status < 400 && !response.announced.Unreadable?
              && !Oversized(response, limit) && !response.breaksOff
    ensures outcome.Payload? ==> outcome.bytes == Concat(response.chunks)
  {
    if response.status == 429 {
      return Quota;
    }
    if response.status >= 500 {
      return Dropped;
    }
    if response.status >= 400 {
      return Rejected;
    }
    if response.announced.Unreadable? {
      return OtherFault;
    }
    if response.announced.Length? && response.announced.n > limit {
      return TooLarge;
    }
    var buffer: seq<bv8> := [];
    for i := 0 to |response.chunks|
      invariant buffer == Concat(response.chunks[..i]) && |buffer| <= limit
    {
      buffer := buffer + response.chunks[i];
      assert response.chunks[..i + 1][..i] == response.chunks[..i];
      if |buffer| > limit {
        ConcatPrefixIsShorter(response.chunks, i + 1);
        return TooLarge;
      }
    }
    assert response.chunks[..|response.chunks|] == response.chunks;
    outcome := if response.breaksOff then Dropped else Payload(buffer);
  }

  function Decision(outcomes: seq<Outcome>): Outcome
    requires outcomes != []
  {
    if |outcomes| == 1 || !outcomes[0].FallsBack() then outcomes[0] else Decision(outcomes[1..])
  }

  /** The first client whose attempt is not passed on decides, or else the last one. */
  lemma {:induction false} DecisionIsFirst(outcomes: seq<Outcome>) returns (k: nat)
    requires outcomes != []
    ensures k < |outcomes| && Decision(outcomes) == outcomes[k]
    ensures forall i | 0 <= i < k :: outcomes[i].Unreachable? || outcomes[i].ProxyFault?
    ensures outcomes[k].Unreachable? || outcomes[k].ProxyFault? ==> k == |outcomes| - 1
  {
    if |outcomes| == 1 || !outcomes[0].FallsBack() {
      k := 0;
    } else {
      k := DecisionIsFirst(outcomes[1..]);
      k := k + 1;
    }
  }

  method ReadWithFallback(outcomes: seq<Outcome>) returns (outcome: Outcome)
    requires outcomes != []
    ensures outcome == Decision(outcomes)
  {
    var i := 0;
    while true
      invariant 0 <= i < |outcomes| && Decision(outcomes[i..]) == Decision(outcomes)
      decreases |outcomes| - i
    {
      if !outcomes[i].FallsBack() || i == |outcomes| - 1 {
        return outcomes[i];
      }
      assert outcomes[i..][1..] == outcomes[i + 1..];
      i := i + 1;
    }
  }

  datatype Keys = Keys(failKey: string, openKey: string)

  /** The store after `reached` commands of a recorded failure got through. */
  function AfterFailure(db: Db, keys: Keys, reached: nat): Db {
    var counted := db.Incr(keys.failKey);
    var count := counted.Count(keys.failKey);
    if reached == 0 then db
    else if reached == 1 then counted
    else if count == 1 then counted.Expire(keys.failKey, Circuit.WINDOW_SECONDS)
    else if count >= Circuit.FAILURE_THRESHOLD then counted.SetEx(keys.openKey, Text("1"), Circuit.OPEN_SECONDS)
    else counted
  }

  /** An unreachable store is swallowed, so a prefix of the commands may be all that happens. */
  method RecordFailure(v: Valkey, keys: Keys, reached: nat)
    modifies v
    ensures v.View() == AfterFailure(old(v.View()), keys, reached)
    ensures reached == 0 ==> v.View() == old(v.View())
    ensures reached > 0 && keys.failKey != keys.openKey ==>
              var count := old(v.View()).Count(keys.failKey) + 1;
              && v.View().Lookup(keys.failKey) == Some(Number(count))
              && old(v.View()).AgreesOutside(v.View(), {keys.failKey, keys.openKey})
              && (count == 1 && reached > 1 ==> v.View().LivesFor(keys.failKey, 300000))
              && (if count >= 5 && reached > 1
                  then v.View().Lookup(keys.openKey) == Some(Text("1")) && v.View().LivesFor(keys.openKey, 600000)
                  else old(v.View()).AgreesOn(v.View(), {keys.openKey}))
  {
    if reached == 0 {
      return;
    }
    var failures := v.Incr(keys.failKey);
    if reached == 1 {
      return;
    }
    if failures == 1 {
      v.Expire(keys.failKey, Circuit.WINDOW_SECONDS);
    }
    if failures >= Circuit.FAILURE_THRESHOLD {
      v.SetEx(keys.openKey, Text("1"), Circuit.OPEN_SECONDS);
    }
  }

  function AfterSuccess(db: Db, keys: Keys, reached: nat): Db {
    if reached == 0 then db else db.Del({keys.failKey})
  }

  /** A success leaves no failure counter behind, unless the store could not be reached. */
  method ClearFailures(v: Valkey, keys: Keys, reached: nat)
    modifies v
    ensures v.View() == AfterSuccess(old(v.View()), keys, reached)
    ensures if reached == 0 then v.View() == old(v.View())
            else !v.View().Live(keys.failKey) && old(v.View()).AgreesOutside(v.View(), {keys.failKey})
  {
    if reached > 0 {
      v.Del({keys.failKey});
    }
  }

  /** The commands of a recorded failure are the steps of the circuit's runs. */
  lemma RecordingIsTwoSteps(s: Circuit.State, call: nat)
    requires call !in s.owed
    ensures var keys := Keys(s.failKey, s.openKey);
            var counted := Circuit.Do(s, Circuit.CountFailure(call));
            && counted.db == AfterFailure(s.db, keys, 1)
            && (if call in counted.owed
                then Circuit.Do(counted, Circuit.FollowUp(call)).db == AfterFailure(s.db, keys, 2)
                else counted.db == AfterFailure(s.db, keys, 2))
  {
  }

  /** And so are those of a success and of the check that precedes a request. */
  lemma SuccessAndCheckAreSteps(s: Circuit.State, reached: nat, readable: bool)
    ensures AfterSuccess(s.db, Keys(s.failKey, s.openKey), reached) == Circuit.Do(s, Circuit.Succeed(reached > 0)).db
    ensures (readable && s.db.Lookup(s.openKey).Some?) <==>
            |Circuit.Do(s, Circuit.Check(readable)).passages| == |s.passages|
  {
  }

  datatype Reply = CircuitOpen | Ended(outcome: Outcome, attempts: nat)

  /** A request reads nothing while the circuit is open. Otherwise it ends with the first attempt
      that is not retried, or with the third; a payload clears the failure counter, a failure
      that counts is recorded once however many attempts it took, and any other fault leaves the
      counter alone. */
  method GetBytes(v: Valkey, keys: Keys, clients: seq<seq<Outcome>>, switchReadable: bool, reached: nat)
    returns (reply: Reply)
    requires |clients| == ATTEMPTS && forall i | 0 <= i < ATTEMPTS :: clients[i] != []
    modifies v
    ensures reply.CircuitOpen? <==> switchReadable && old(v.View()).Live(keys.openKey)
    ensures reply.CircuitOpen? ==> v.View() == old(v.View())
    ensures reply.Ended? ==>
              && 1 <= reply.attempts <= 3
              && reply.outcome == Decision(clients[reply.attempts - 1])
              && (forall i | 0 <= i < reply.attempts - 1 ::
                    Decision(clients[i]).Unreachable? || Decision(clients[i]).Dropped?)
              && (reply.outcome.Unreachable? || reply.outcome.Dropped? ==> reply.attempts == 3)
    ensures reply.Ended? ==>
              match reply.outcome
              case Payload(_) =>
                if reached == 0 then v.View() == old(v.View())
                else !v.View().Live(keys.failKey) && old(v.View()).AgreesOutside(v.View(), {keys.failKey})
              case ProxyFault => v.View() == old(v.View())
              case TooLarge => v.View() == old(v.View())
              case OtherFault => v.View() == old(v.View())
              case _ => v.View() == AfterFailure(old(v.View()), keys, reached)
  {
    if switchReadable {
      var switch := v.Get(keys.openKey);
      if switch.Some? {
        return CircuitOpen;
      }
    }
    var attempt := 0;
    while true
      invariant 0 <= attempt < ATTEMPTS && v.View() == old(v.View())
      invariant forall i | 0 <= i < attempt :: Decision(clients[i]).Retried()
      decreases ATTEMPTS - attempt
    {
      var outcome := ReadWithFallback(clients[attempt]);
      if outcome.Payload? {
        ClearFailures(v, keys, reached);
        return Ended(outcome, attempt + 1);
      }
      if outcome.Retried() {
        if attempt == ATTEMPTS - 1 {
          RecordFailure(v, keys, reached);
          return Ended(outcome, attempt + 1);
        }
      } else {
        if outcome.Quota? || outcome.Rejected? {
          RecordFailure(v, keys, reached);
        }
        return Ended(outcome, attempt + 1);
      }
      attempt := attempt + 1;
    }
  }
}
