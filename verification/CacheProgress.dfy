/** What the cache protocol gets done: a reader who needs a new value and finds no lock becomes the
    one who computes it, a result that is stored in time is what everybody sees, a waiter gets it,
    and a computation that fails makes room for the next one. */
module CacheProgress {
  import opened Store
  import opened CacheLayer
  import opened CacheRuns

  /** The age at which a reader with this clock reading sees the value, if there is one. */
  function AgeSeen(s: State, clock: int): Option<int> {
    match s.db.Lookup(s.cfg.dataKey)
    case Some(Hash(_, storedAt)) => Some(clock - storedAt)
    case _ => None
  }

  /** A reader who arrives and reads at once judges the value by the whole seconds since its stamp. */
  lemma ArrivalReadsTheClock(s: State, token: Token)
    requires Enabled(s, Begin(token))
    ensures var arrived := Do(s, Begin(token));
            && Enabled(arrived, Read(token, true)) && arrived.calls[token].clock == s.db.now / 1000
            && arrived.db == s.db && AgeSeen(arrived, arrived.calls[token].clock) == AgeSeen(s, s.db.now / 1000)
  {
  }

  /** A reader past the ttl who finds no lock has it from then on, and is the one who computes: at
      once if there is nothing left to show, and otherwise, after serving the stale value, if there
      is a slot for the refresh. */
  lemma ReaderBecomesTheLeader(s: State, token: Token, slotFree: bool)
    requires Enabled(s, Read(token, slotFree)) && !s.db.Live(s.cfg.lockKey)
    requires AgeSeen(s, s.calls[token].clock).Some? ==> AgeSeen(s, s.calls[token].clock).value > s.cfg.ttl
    ensures var age, later := AgeSeen(s, s.calls[token].clock), Do(s, Read(token, slotFree));
            && Holds(later.db, s.cfg, token) && later.db.LivesFor(s.cfg.lockKey, 15000)
            && token in later.leases && later.leases[token].acquired == s.db.now
            && (age.None? || age.value > s.cfg.stale ==>
                  later.calls[token] == Computing && later.serves == s.serves)
            && (age.Some? && age.value <= s.cfg.stale ==>
                  && later.calls[token] == (if slotFree then Computing else Unlocking)
                  && later.serves ==
                     s.serves + [ServedStale(s.db.Lookup(s.cfg.dataKey).value.blob, s.calls[token].clock)])
  {
  }

  /** Everybody else gets what there is without touching the store: the fresh value, the stale one,
      or, with nothing to show, a place among the waiters. */
  lemma OtherReadersAreServed(s: State, token: Token, slotFree: bool)
    requires Enabled(s, Read(token, slotFree))
    requires s.db.Live(s.cfg.lockKey) ||
             (AgeSeen(s, s.calls[token].clock).Some? && AgeSeen(s, s.calls[token].clock).value <= s.cfg.ttl)
    ensures var clock, later := s.calls[token].clock, Do(s, Read(token, slotFree));
            && later.db == s.db && later.leases == s.leases
            && match AgeSeen(s, clock)
               case Some(age) =>
                 var blob := s.db.Lookup(s.cfg.dataKey).value.blob;
                 if age <= s.cfg.ttl then
                   later.serves == s.serves + [ServedFresh(blob, clock)] && later.calls[token] == Finished
                 else if age <= s.cfg.stale then
                   later.serves == s.serves + [ServedStale(blob, clock)] && later.calls[token] == Finished
                 else later.serves == s.serves && later.calls[token] == Waiting(s.db.now)
               case None => later.serves == s.serves && later.calls[token] == Waiting(s.db.now)
  {
  }

  lemma LeaderStamps(s: State, token: Token, computing: nat, storing: nat) returns (later: State)
    requires token in s.calls && s.calls[token].Computing?
    ensures forall target :: Reaches(later, target) ==> Reaches(s, target)
    ensures later == s.(
              db := s.db.Advance(computing + storing),
              calls := s.calls[token := Stamped(Blob(s.source, s.db.now), Seconds(s.db.now + computing))])
  {
    var s1 := Do(s, Sample(token));
    var s2 := Do(s1, Tick(computing));
    var s3 := Do(s2, Stamp(token));
    later := Do(s3, Tick(storing));
    forall target | Reaches(later, target)
      ensures Reaches(s, target)
    {
      ReachesOneStepEarlier(s3, Tick(storing), target);
      ReachesOneStepEarlier(s2, Stamp(token), target);
      ReachesOneStepEarlier(s1, Tick(computing), target);
      ReachesOneStepEarlier(s, Sample(token), target);
    }
  }

  lemma StoringFills(s: State, token: Token, replyLost: bool)
    requires s.cfg.Valid() && Enabled(s, StoreResult(token, replyLost)) && Holds(s.db, s.cfg, token)
    ensures var later := Do(s, StoreResult(token, replyLost));
            && later.db.now == s.db.now && !later.db.Live(s.cfg.lockKey)
            && later.db.Lookup(s.cfg.dataKey) == Some(Hash(s.calls[token].blob, s.calls[token].clock))
            && later.db.LivesFor(s.cfg.dataKey, 1000 * s.cfg.stale)
            && later.calls == s.calls[token := if replyLost then Unlocking else Finished]
  {
  }

  lemma StillHeld(s: State, token: Token, ms: nat)
    requires LockOk(s) && Holds(s.db, s.cfg, token)
    ensures Holds(s.db.Advance(ms), s.cfg, token) <==> s.db.now + ms < s.leases[token].acquired + LOCK_MS
  {
  }

  /** A leader who is done before his 15 s are over fills the cache: the value he has sampled is
      there, stamped with his clock, and the lock is free again. */
  lemma PromptLeaderFillsTheCache(s: State, token: Token, computing: nat, storing: nat, replyLost: bool)
    returns (later: State)
    requires Inv(s) && token in s.calls && s.calls[token].Computing? && Holds(s.db, s.cfg, token)
    requires s.db.now + computing + storing < s.leases[token].acquired + 15000
    ensures Reaches(s, later)
    ensures later.db.now == s.db.now + computing + storing && !later.db.Live(s.cfg.lockKey)
    ensures later.db.Lookup(s.cfg.dataKey) == Some(Hash(Blob(s.source, s.db.now), Seconds(s.db.now + computing)))
    ensures later.db.LivesFor(s.cfg.dataKey, 1000 * s.cfg.stale)
    ensures later.calls == s.calls[token := if replyLost then Unlocking else Finished]
  {
    StillHeld(s, token, computing + storing);
    var s1 := LeaderStamps(s, token, computing, storing);
    StoringFills(s1, token, replyLost);
    later := Do(s1, StoreResult(token, replyLost));
    ReachesItself(later);
    ReachesOneStepEarlier(s1, StoreResult(token, replyLost), later);
  }

  /** A waiter who polls gets the value exactly if there is one, and otherwise waits on. */
  lemma WaiterGetsTheValue(s: State, token: Token)
    requires Inv(s) && Enabled(s, Poll(token))
    ensures var later := Do(s, Poll(token));
            match s.db.Lookup(s.cfg.dataKey)
            case Some(value) =>
              && value.Hash? && later.calls[token] == Finished && |later.serves| == |s.serves| + 1
              && later.serves[|s.serves|].ServedWaiter? && later.serves[|s.serves|].blob == value.blob
            case None => later == s
  {
    assert DataOk(s);
  }

  /** A computation that fails, for whatever reason, releases its lock and leaves the value alone. */
  lemma FailureFreesTheLock(s: State, token: Token)
    requires Enabled(s, ComputeFails(token)) && Holds(s.db, s.cfg, token) && s.cfg.Valid()
    ensures Enabled(Do(s, ComputeFails(token)), Unlock(token))
    ensures var later := Do(Do(s, ComputeFails(token)), Unlock(token));
            && !later.db.Live(s.cfg.lockKey) && s.db.AgreesOutside(later.db, {s.cfg.lockKey})
            && later.calls[token] == Finished
  {
  }

  /** Whoever dies with the lock keeps the others out for no longer than the rest of the 15 s. */
  lemma LockOfTheDeadExpires(s: State, token: Token, ms: nat)
    requires Inv(s) && Holds(s.db, s.cfg, token)
    ensures var later := Do(Do(s, Crash(token)), Tick(ms));
            later.db.Live(s.cfg.lockKey) <==> s.db.now + ms < s.leases[token].acquired + 15000
  {
    assert LockOk(s);
  }
}
