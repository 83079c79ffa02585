/** All runs of the cache protocol for one cache key: any number of calls to `cached`, each with
    its own token, interleaved step by step with invalidations, source updates, crashes, pauses
    of any length and the traffic of all other keys.

    A client's clock reading and the script that uses it are separate steps, so every reading
    may be arbitrarily old when the script runs. */
module CacheRuns {
  import opened Store
  import opened CacheLayer

  type Token = string

  /** Where one call to `cached` stands. */
  datatype Phase =
    | Clocked(clock: int)
    | Waiting(missedAt: Time)
    | Computing
    | Sampled(blob: Blob)
    | Stamped(blob: Blob, clock: int)
    | Unlocking
    | Finished
  {
    /** `compute` has been started for this call and its result is not yet stored or dropped. */
    predicate Active() {
      Computing? || Sampled? || Stamped?
    }
  }

  /** How a call came by the lock: the instant, the number of invalidations before it, the
      source version at that instant and the rank among all acquisitions. */
  datatype Lease = Lease(acquired: Time, epoch: nat, floor: nat, rank: nat)

  datatype StoreRecord = StoreRecord(token: Token, blob: Blob, at: Time, epoch: nat)

  /** A value handed to a caller out of the cache; `written` is when it was put there and `polledAt`
      when a waiter got it. */
  datatype ServeRecord =
    | ServedFresh(blob: Blob, clock: int)
    | ServedStale(blob: Blob, clock: int)
    | ServedWaiter(blob: Blob, missedAt: Time, written: Time, storedAt: int, polledAt: Time)

  /** `barrier` is the source version at the last invalidation. */
  datatype State = State(
    cfg: Config,
    db: Db,
    source: nat,
    epoch: nat,
    barrier: nat,
    calls: map<Token, Phase>,
    leases: map<Token, Lease>,
    granted: nat,
    stores: seq<StoreRecord>,
    serves: seq<ServeRecord>)

  datatype Event =
    | Tick(ms: nat)
    | OtherTraffic(db: Db)
    | Publish(version: nat)
    | Begin(token: Token)
    | Read(token: Token, slotFree: bool)
    | Poll(token: Token)
    | GiveUp(token: Token)
    | Sample(token: Token)
    | Stamp(token: Token)
    | StoreResult(token: Token, replyLost: bool)
    | ComputeFails(token: Token)
    | Unlock(token: Token)
    | Crash(token: Token)
    | Invalidated

  predicate Enabled(s: State, e: Event) {
    match e
    case Tick(_) => true
    case OtherTraffic(db) => s.db.AgreesOn(db, {s.cfg.dataKey, s.cfg.lockKey})
    case Publish(version) => s.source <= version
    case Begin(token) => token !in s.calls
    case Read(token, _) => token in s.calls && s.calls[token].Clocked?
    case Poll(token) => token in s.calls && s.calls[token].Waiting?
    case GiveUp(token) => token in s.calls && s.calls[token].Waiting?
    case Sample(token) => token in s.calls && s.calls[token].Computing?
    case Stamp(token) => token in s.calls && s.calls[token].Sampled?
    case StoreResult(token, _) => token in s.calls && s.calls[token].Stamped?
    case ComputeFails(token) => token in s.calls && s.calls[token].Active()
    case Unlock(token) => token in s.calls && s.calls[token].Unlocking?
    case Crash(token) => token in s.calls
    case Invalidated => true
  }

  function Goto(s: State, token: Token, phase: Phase): State {
    s.(calls := s.calls[token := phase])
  }

  /** A lock won is remembered as a lease. */
  function TakeLock(s: State, token: Token, phase: Phase): State {
    var s1 := s.(
      db := s.db.SetEx(s.cfg.lockKey, Text(token), LOCK_SECONDS),
      leases := s.leases[token := Lease(s.db.now, s.epoch, s.source, s.granted)],
      granted := s.granted + 1);
    Goto(s1, token, phase)
  }

  function Serve(s: State, r: ServeRecord): State {
    s.(serves := s.serves + [r])
  }

  /** What a call does with the answer of the read script. A refresh that finds no free background
      slot goes straight to unlocking. */
  function Answered(s: State, token: Token, clock: int, slotFree: bool, reply: Reply): State {
    match reply
    case Fresh(blob, _) => Goto(Serve(s, ServedFresh(blob, clock)), token, Finished)
    case Stale(blob, _) => Goto(Serve(s, ServedStale(blob, clock)), token, Finished)
    case Revalidate(blob, _) =>
      TakeLock(Serve(s, ServedStale(blob, clock)), token, if slotFree then Computing else Unlocking)
    case MissLeader => TakeLock(s, token, Computing)
    case MissWait => Goto(s, token, Waiting(s.db.now))
  }

  function DoStore(s: State, token: Token, blob: Blob, clock: int, replyLost: bool): State {
    var s1 := s.(
      db := AfterStore(s.db, s.cfg, token, blob, clock),
      stores := if Holds(s.db, s.cfg, token) then s.stores + [StoreRecord(token, blob, s.db.now, s.epoch)]
                else s.stores);
    Goto(s1, token, if replyLost then Unlocking else Finished)
  }

  function Written(s: State): Time
    requires s.cfg.dataKey in s.db.entries && s.db.entries[s.cfg.dataKey].expiry.Some?
  {
    s.db.entries[s.cfg.dataKey].expiry.value - 1000 * s.cfg.stale
  }

  function DoPoll(s: State, token: Token, missedAt: Time): State {
    match s.db.Lookup(s.cfg.dataKey)
    case Some(Hash(blob, storedAt)) =>
      var written := if s.db.entries[s.cfg.dataKey].expiry.Some? then Written(s) else s.db.now;
      Goto(s.(serves := s.serves + [ServedWaiter(blob, missedAt, written, storedAt, s.db.now)]), token, Finished)
    case _ => s
  }

  function Do(s: State, e: Event): State
    requires Enabled(s, e)
  {
    match e
    case Tick(ms) => s.(db := s.db.Advance(ms))
    case OtherTraffic(db) => s.(db := db)
    case Publish(version) => s.(source := version)
    case Begin(token) => Goto(s, token, Clocked(Seconds(s.db.now)))
    case Read(token, slotFree) =>
      var clock := s.calls[token].clock;
      Answered(s, token, clock, slotFree, ReadReply(s.db, s.cfg, clock))
    case Poll(token) => DoPoll(s, token, s.calls[token].missedAt)
    case GiveUp(token) => Goto(s, token, Finished)
    case Sample(token) => Goto(s, token, Sampled(Blob(s.source, s.db.now)))
    case Stamp(token) => Goto(s, token, Stamped(s.calls[token].blob, Seconds(s.db.now)))
    case StoreResult(token, replyLost) => DoStore(s, token, s.calls[token].blob, s.calls[token].clock, replyLost)
    case ComputeFails(token) => Goto(s, token, Unlocking)
    case Unlock(token) => Goto(s.(db := AfterUnlock(s.db, s.cfg, token)), token, Finished)
    case Crash(token) => Goto(s, token, Finished)
    case Invalidated => s.(db := AfterInvalidate(s.db, s.cfg), epoch := s.epoch + 1, barrier := s.source)
  }

  predicate Run(s: State, events: seq<Event>)
    decreases |events|
  {
    events == [] || (Enabled(s, events[0]) && Run(Do(s, events[0]), events[1..]))
  }

  function Exec(s: State, events: seq<Event>): State
    requires Run(s, events)
    decreases |events|
  {
    if events == [] then s else Exec(Do(s, events[0]), events[1..])
  }

  /** Nothing of this cache key is in the store and no call has begun. */
  predicate Init(s: State) {
    && s.cfg.Valid()
    && s.cfg.dataKey !in s.db.entries && s.cfg.lockKey !in s.db.entries
    && s.epoch == 0 && s.barrier == 0
    && s.calls == map[] && s.leases == map[] && s.granted == 0 && s.stores == [] && s.serves == []
  }

  // The inductive invariant, one clause for each part of the state.

  /** The newest version ever written under the data key. */
  function High(s: State): nat {
    if s.stores == [] then 0 else s.stores[|s.stores| - 1].blob.version
  }

  /** A held lock belongs to a lease of the current epoch, expires 15 s after that lease began
      and started from a source no older than anything stored or invalidated so far. */
  ghost predicate LockOk(s: State) {
    s.db.Live(s.cfg.lockKey) ==>
      var entry := s.db.entries[s.cfg.lockKey];
      && entry.value.Text? && entry.value.text in s.leases
      && var lease := s.leases[entry.value.text];
         && entry.expiry == Some(lease.acquired + LOCK_MS)
         && lease.epoch == s.epoch
         && s.barrier <= lease.floor && High(s) <= lease.floor
  }

  ghost predicate LeasesOk(s: State) {
    && s.barrier <= s.source && High(s) <= s.source
    && forall t <- s.leases ::
         && t in s.calls && !s.calls[t].Clocked?
         && s.leases[t].acquired <= s.db.now && s.leases[t].epoch <= s.epoch
         && s.leases[t].floor <= s.source && s.leases[t].rank < s.granted
  }

  ghost predicate BlobOk(s: State, lease: Lease, blob: Blob) {
    && lease.acquired <= blob.sampledAt <= s.db.now
    && lease.floor <= blob.version <= s.source
  }

  ghost predicate CallOk(s: State, t: Token)
    requires t in s.calls
  {
    var phase := s.calls[t];
    && (phase.Active() || phase.Unlocking? ==> t in s.leases)
    && (phase.Sampled? ==> BlobOk(s, s.leases[t], phase.blob))
    && (phase.Stamped? ==> BlobOk(s, s.leases[t], phase.blob) && phase.clock <= Seconds(s.db.now))
    && (phase.Clocked? ==> phase.clock <= Seconds(s.db.now))
    && (phase.Waiting? ==> phase.missedAt <= s.db.now)
  }

  ghost predicate CallsOk(s: State) {
    forall t <- s.calls :: CallOk(s, t)
  }

  /** What is in the cache is the last value stored; its time stamp and the store itself are younger
      than its sample by less than the length of a lock. */
  ghost predicate DataOk(s: State) {
    s.db.Live(s.cfg.dataKey) ==>
      var entry := s.db.entries[s.cfg.dataKey];
      && entry.value.Hash? && entry.expiry.Some? && Written(s) <= s.db.now
      && Written(s) < entry.value.blob.sampledAt + LOCK_MS
      && entry.value.storedAt * 1000 < entry.value.blob.sampledAt + LOCK_MS
      && s.stores != [] && entry.value.blob == s.stores[|s.stores| - 1].blob
      && s.barrier <= entry.value.blob.version
  }

  /** A value was written after a waiter missed it, unless it was stamped late. */
  predicate NewSince(written: Time, storedAt: int, missedAt: Time) {
    missedAt <= written || Late(storedAt, written)
  }

  ghost predicate WaitersOk(s: State) {
    s.db.Live(s.cfg.dataKey) && s.db.entries[s.cfg.dataKey].expiry.Some? && s.db.entries[s.cfg.dataKey].value.Hash? ==>
      forall t <- s.calls | s.calls[t].Waiting? ::
        NewSince(Written(s), s.db.entries[s.cfg.dataKey].value.storedAt, s.calls[t].missedAt)
  }

  /** A stored value was sampled and stored inside the tenure of its own token, with no
      invalidation between the acquisition of the lock and the store. */
  ghost predicate StoreOk(s: State, r: StoreRecord) {
    && r.token in s.leases
    && var lease := s.leases[r.token];
       && lease.acquired <= r.blob.sampledAt <= r.at < lease.acquired + LOCK_MS
       && lease.epoch == r.epoch
       && lease.floor <= r.blob.version <= s.source
  }

  ghost predicate StoresOk(s: State) {
    && (forall r <- s.stores :: StoreOk(s, r))
    && (forall i, j | 0 <= i <= j < |s.stores| :: s.stores[i].blob.version <= s.stores[j].blob.version)
  }

  ghost predicate ServeOk(c: Config, r: ServeRecord) {
    match r
    case ServedFresh(blob, clock) => 1000 * clock - blob.sampledAt < 1000 * (c.ttl + LOCK_SECONDS)
    case ServedStale(blob, clock) => 1000 * clock - blob.sampledAt < 1000 * (c.stale + LOCK_SECONDS)
    case ServedWaiter(blob, missedAt, written, storedAt, polledAt) =>
      NewSince(written, storedAt, missedAt) && polledAt - blob.sampledAt < 1000 * (c.stale + LOCK_SECONDS)
  }

  ghost predicate ServesOk(s: State) {
    forall r <- s.serves :: ServeOk(s.cfg, r)
  }

  /** A call that is still computing holds the lock, or its lock has expired, or it has been
      invalidated. */
  ghost predicate TenureOk(s: State) {
    forall t <- s.calls | IsComputing(s, t) ::
      Holds(s.db, s.cfg, t) || s.leases[t].acquired + LOCK_MS <= s.db.now || s.leases[t].epoch < s.epoch
  }

  predicate IsComputing(s: State, t: Token) {
    t in s.calls && t in s.leases && s.calls[t].Active()
  }

  /** `late` took the lock only after the lock of `early` had run out or had been invalidated. */
  predicate Succeeds(early: Lease, late: Lease) {
    early.acquired + LOCK_MS <= late.acquired || early.epoch < late.epoch
  }

  /** No two leases have the same rank, so the one with the lower rank is the earlier one. */
  ghost predicate RanksOk(s: State) {
    forall a <- s.leases, b <- s.leases | a != b :: s.leases[a].rank != s.leases[b].rank
  }

  ghost predicate OverlapOk(s: State) {
    forall a <- s.leases, b <- s.leases | IsComputing(s, a) && IsComputing(s, b) ::
      s.leases[a].rank < s.leases[b].rank ==> Succeeds(s.leases[a], s.leases[b])
  }

  /** What makes the content of the cache move only forward. */
  ghost predicate Core(s: State) {
    s.cfg.Valid() && LockOk(s) && LeasesOk(s) && CallsOk(s) && DataOk(s)
  }

  /** What readers get. */
  ghost predicate Readers(s: State) {
    WaitersOk(s) && ServesOk(s)
  }

  /** Who may be computing at the same time. */
  ghost predicate Flights(s: State) {
    TenureOk(s) && OverlapOk(s)
  }

  ghost predicate Inv(s: State) {
    Core(s) && StoresOk(s) && Readers(s) && RanksOk(s) && Flights(s)
  }

  /** The store moves through a step of a call exactly as the script of that step says. */
  lemma StepsRunTheScripts(s: State, token: Token, slotFree: bool, replyLost: bool)
    ensures Enabled(s, Read(token, slotFree)) ==>
              Do(s, Read(token, slotFree)).db == AfterRead(s.db, s.cfg, s.calls[token].clock, token)
    ensures Enabled(s, StoreResult(token, replyLost)) ==>
              Do(s, StoreResult(token, replyLost)).db ==
              AfterStore(s.db, s.cfg, token, s.calls[token].blob, s.calls[token].clock)
    ensures Enabled(s, Unlock(token)) ==> Do(s, Unlock(token)).db == AfterUnlock(s.db, s.cfg, token)
    ensures Do(s, Invalidated).db == AfterInvalidate(s.db, s.cfg)
  {
  }

  lemma InitEstablishes(s: State)
    requires Init(s)
    ensures Inv(s)
  {
  }

  lemma PassiveCore(s: State, e: Event)
    requires Core(s) && Enabled(s, e) && (e.Tick? || e.OtherTraffic? || e.Publish?)
    ensures Core(Do(s, e))
  {
  }

  lemma GotoCore(s: State, token: Token, phase: Phase)
    requires Core(s) && (phase.Clocked? ==> token !in s.leases)
    requires CallOk(Goto(s, token, phase), token)
    ensures Core(Goto(s, token, phase))
  {
  }

  lemma ReleaseCore(s: State, keys: set<string>)
    requires Core(s)
    ensures Core(s.(db := s.db.Del(keys)))
  {
  }

  lemma InvalidateCore(s: State)
    requires Core(s)
    ensures Core(Do(s, Invalidated))
  {
  }

  lemma TakeLockCore(s: State, token: Token, phase: Phase)
    requires Core(s) && token in s.calls && s.calls[token].Clocked? && !s.db.Live(s.cfg.lockKey)
    requires phase.Computing? || phase.Unlocking?
    ensures Core(TakeLock(s, token, phase))
  {
  }

  lemma AnswerCore(s: State, token: Token, clock: int, slotFree: bool, reply: Reply)
    requires Core(s) && token in s.calls && s.calls[token].Clocked? && (reply.TookLock() ==> !s.db.Live(s.cfg.lockKey))
    ensures Core(Answered(s, token, clock, slotFree, reply))
  {
    match reply
    case Fresh(blob, _) => GotoCore(Serve(s, ServedFresh(blob, clock)), token, Finished);
    case Stale(blob, _) => GotoCore(Serve(s, ServedStale(blob, clock)), token, Finished);
    case MissWait => GotoCore(s, token, Waiting(s.db.now));
    case MissLeader => TakeLockCore(s, token, Computing);
    case Revalidate(blob, _) =>
      TakeLockCore(Serve(s, ServedStale(blob, clock)), token, if slotFree then Computing else Unlocking);
  }

  lemma OtherCore(s: State, e: Event)
    requires Core(s) && Enabled(s, e)
    requires !e.Read? && !e.StoreResult?
    ensures Core(Do(s, e))
  {
    match e
    case Tick(_) => PassiveCore(s, e);
    case OtherTraffic(_) => PassiveCore(s, e);
    case Publish(_) => PassiveCore(s, e);
    case Begin(token) => GotoCore(s, token, Clocked(Seconds(s.db.now)));
    case Poll(token) =>
      if s.db.Lookup(s.cfg.dataKey).Some? {
        GotoCore(s.(serves := Do(s, e).serves), token, Finished);
      }
    case GiveUp(token) => GotoCore(s, token, Finished);
    case Sample(token) => GotoCore(s, token, Sampled(Blob(s.source, s.db.now)));
    case Stamp(token) => GotoCore(s, token, Stamped(s.calls[token].blob, Seconds(s.db.now)));
    case ComputeFails(token) => GotoCore(s, token, Unlocking);
    case Unlock(token) =>
      ReleaseCore(s, {s.cfg.lockKey});
      GotoCore(s.(db := AfterUnlock(s.db, s.cfg, token)), token, Finished);
    case Crash(token) => GotoCore(s, token, Finished);
    case Invalidated => InvalidateCore(s);
  }

  /** A store under the token's own lock, as far as the contents of the cache are concerned. */
  lemma StoringCore(s: State, token: Token)
    requires Core(s) && token in s.calls && s.calls[token].Stamped? && Holds(s.db, s.cfg, token)
    ensures Core(DoStore(s, token, s.calls[token].blob, s.calls[token].clock, false))
  {
    assert CallOk(s, token);
  }

  lemma StoreCore(s: State, token: Token, replyLost: bool)
    requires Core(s) && Enabled(s, StoreResult(token, replyLost))
    ensures Core(Do(s, StoreResult(token, replyLost)))
  {
    var next := if replyLost then Unlocking else Finished;
    if Holds(s.db, s.cfg, token) {
      StoringCore(s, token);
      GotoCore(DoStore(s, token, s.calls[token].blob, s.calls[token].clock, false), token, next);
    } else {
      GotoCore(s, token, next);
    }
  }

  lemma AnyStores(s: State, e: Event)
    requires Core(s) && StoresOk(s) && Enabled(s, e)
    requires !e.StoreResult?
    ensures StoresOk(Do(s, e))
  {
  }

  /** The heart of the protocol: a result that is stored shows a source version at least as new
      as everything stored before it. */
  lemma StoreStores(s: State, token: Token, replyLost: bool)
    requires Core(s) && StoresOk(s) && Enabled(s, StoreResult(token, replyLost))
    ensures StoresOk(Do(s, StoreResult(token, replyLost)))
  {
    var s' := Do(s, StoreResult(token, replyLost));
    if Holds(s.db, s.cfg, token) {
      assert s'.stores == s.stores + [StoreRecord(token, s.calls[token].blob, s.db.now, s.epoch)];
      assert CallOk(s, token);
      assert StoreOk(s', s'.stores[|s.stores|]);
    }
  }

  lemma AnyReaders(s: State, e: Event)
    requires Core(s) && Readers(s) && Enabled(s, e)
    requires !e.Read? && !e.StoreResult?
    ensures Readers(Do(s, e))
  {
  }

  lemma ReadReaders(s: State, token: Token, slotFree: bool)
    requires Core(s) && Readers(s) && Enabled(s, Read(token, slotFree))
    ensures Readers(Do(s, Read(token, slotFree)))
  {
  }

  lemma StoreReaders(s: State, token: Token, replyLost: bool)
    requires Core(s) && Readers(s) && Enabled(s, StoreResult(token, replyLost))
    ensures Readers(Do(s, StoreResult(token, replyLost)))
  {
  }

  lemma AnyTenure(s: State, e: Event)
    requires Core(s) && TenureOk(s) && Enabled(s, e)
    requires !e.Read? && !e.StoreResult?
    ensures TenureOk(Do(s, e))
  {
  }

  lemma AnyOverlap(s: State, e: Event)
    requires OverlapOk(s) && Enabled(s, e)
    requires !e.Read? && !e.StoreResult?
    ensures OverlapOk(Do(s, e))
  {
  }

  lemma AnyFlights(s: State, e: Event)
    requires Core(s) && Flights(s) && Enabled(s, e)
    requires !e.Read? && !e.StoreResult?
    ensures Flights(Do(s, e))
  {
    AnyTenure(s, e);
    AnyOverlap(s, e);
  }

  lemma AnswerFlights(s: State, token: Token, clock: int, slotFree: bool, reply: Reply)
    requires Core(s) && Flights(s) && token in s.calls && s.calls[token].Clocked?
    requires reply.TookLock() ==> !s.db.Live(s.cfg.lockKey)
    ensures Flights(Answered(s, token, clock, slotFree, reply))
  {
  }

  lemma StoreFlights(s: State, token: Token, replyLost: bool)
    requires Core(s) && Flights(s) && Enabled(s, StoreResult(token, replyLost))
    ensures Flights(Do(s, StoreResult(token, replyLost)))
  {
  }

  /** Only a call that takes the lock gets a lease, the one with the next rank. */
  lemma LeasesMove(s: State, e: Event)
    requires Enabled(s, e)
    ensures var next := Do(s, e);
            || next.leases == s.leases
            || (e.Read? && next.leases == s.leases[e.token := Lease(s.db.now, s.epoch, s.source, s.granted)])
  {
  }

  lemma NextRankIsNew(s: State, leases: map<Token, Lease>, token: Token, lease: Lease)
    requires LeasesOk(s) && RanksOk(s) && lease.rank == s.granted && leases == s.leases[token := lease]
    ensures forall a <- leases, b <- leases | a != b :: leases[a].rank != leases[b].rank
  {
  }

  lemma RanksStep(s: State, e: Event)
    requires LeasesOk(s) && RanksOk(s) && Enabled(s, e)
    ensures RanksOk(Do(s, e))
  {
    LeasesMove(s, e);
    if Do(s, e).leases != s.leases {
      NextRankIsNew(s, Do(s, e).leases, e.token, Do(s, e).leases[e.token]);
    }
  }

  lemma ReadPreserves(s: State, token: Token, slotFree: bool)
    requires Inv(s) && Enabled(s, Read(token, slotFree))
    ensures Inv(Do(s, Read(token, slotFree)))
  {
    var clock := s.calls[token].clock;
    var reply := ReadReply(s.db, s.cfg, clock);
    AnswerCore(s, token, clock, slotFree, reply);
    AnswerFlights(s, token, clock, slotFree, reply);
    ReadReaders(s, token, slotFree);
    AnyStores(s, Read(token, slotFree));
    RanksStep(s, Read(token, slotFree));
  }

  lemma StorePreserves(s: State, token: Token, replyLost: bool)
    requires Inv(s) && Enabled(s, StoreResult(token, replyLost))
    ensures Inv(Do(s, StoreResult(token, replyLost)))
  {
    StoreCore(s, token, replyLost);
    StoreStores(s, token, replyLost);
    StoreReaders(s, token, replyLost);
    StoreFlights(s, token, replyLost);
    RanksStep(s, StoreResult(token, replyLost));
  }

  lemma OthersPreserve(s: State, e: Event)
    requires Inv(s) && Enabled(s, e) && !e.Read? && !e.StoreResult?
    ensures Inv(Do(s, e))
  {
    OtherCore(s, e);
    AnyStores(s, e);
    AnyReaders(s, e);
    AnyFlights(s, e);
    RanksStep(s, e);
  }

  lemma StepPreserves(s: State, e: Event)
    requires Inv(s) && Enabled(s, e)
    ensures Inv(Do(s, e))
  {
    match e
    case Read(token, slotFree) => ReadPreserves(s, token, slotFree);
    case StoreResult(token, replyLost) => StorePreserves(s, token, replyLost);
    case _ => OthersPreserve(s, e);
  }

  lemma {:induction false} RunPreserves(s: State, events: seq<Event>)
    requires Inv(s) && Run(s, events)
    ensures Inv(Exec(s, events))
    decreases |events|
  {
    if events != [] {
      StepPreserves(s, events[0]);
      RunPreserves(Do(s, events[0]), events[1..]);
    }
  }

  /** What no run ever takes back. */
  ghost predicate Extends(s: State, later: State) {
    && later.cfg == s.cfg
    && s.stores <= later.stores
    && s.barrier <= later.barrier && s.epoch <= later.epoch
    && forall t <- s.leases :: t in later.leases && later.leases[t] == s.leases[t]
  }

  lemma {:induction false} RunExtends(s: State, events: seq<Event>)
    requires Inv(s) && Run(s, events)
    ensures Extends(s, Exec(s, events))
    decreases |events|
  {
    if events != [] {
      var next := Do(s, events[0]);
      StepPreserves(s, events[0]);
      StepExtends(s, events[0]);
      RunExtends(next, events[1..]);
    }
  }

  lemma StepExtends(s: State, e: Event)
    requires Inv(s) && Enabled(s, e)
    ensures Extends(s, Do(s, e))
  {
  }

  // The guarantees.

  /** The cached version never decreases: whatever the key shows later in a run is at least as
      new as what it showed before, and nothing ever stored is older than what preceded it. */
  lemma VersionsNeverGoBack(start: State, before: seq<Event>, after: seq<Event>)
    requires Init(start) && Run(start, before) && Run(Exec(start, before), after)
    ensures var s, later := Exec(start, before), Exec(Exec(start, before), after);
            && (forall i, j | 0 <= i <= j < |later.stores| ::
                  later.stores[i].blob.version <= later.stores[j].blob.version)
            && match (s.db.Lookup(s.cfg.dataKey), later.db.Lookup(s.cfg.dataKey))
               case (Some(Hash(earlier, _)), Some(Hash(newer, _))) => earlier.version <= newer.version
               case _ => true
  {
    var s := Exec(start, before);
    var later := Exec(s, after);
    RunPreserves(start, before);
    RunPreserves(s, after);
    RunExtends(s, after);
    if s.db.Live(s.cfg.dataKey) && later.db.Live(s.cfg.dataKey) {
      assert s.stores[|s.stores| - 1] == later.stores[|s.stores| - 1];
    }
  }

  /** Every value ever stored was sampled and stored inside the tenure of the token that stored
      it, in the invalidation epoch in which that token took the lock. */
  lemma StoresStayInsideTheirTenure(start: State, events: seq<Event>)
    requires Init(start) && Run(start, events)
    ensures var s := Exec(start, events);
            forall r <- s.stores ::
              && r.token in s.leases
              && s.leases[r.token].acquired <= r.blob.sampledAt <= r.at < s.leases[r.token].acquired + LOCK_MS
              && s.leases[r.token].epoch == r.epoch
              && s.leases[r.token].floor <= r.blob.version
  {
    RunPreserves(start, events);
    assert StoresOk(Exec(start, events));
  }

  /** None of the values stored between `s` and `later` was stored by `token`. */
  ghost predicate NoneBy(token: Token, s: State, later: State) {
    forall i | |s.stores| <= i < |later.stores| :: later.stores[i].token != token
  }

  /** A tenure is unbroken: a token that has had the lock and no longer has it never gets it
      back, so none of its results is stored any more. */
  lemma {:induction false} LostLockIsLostForGood(s: State, token: Token, events: seq<Event>)
    requires Inv(s) && token in s.leases && !Holds(s.db, s.cfg, token) && Run(s, events)
    ensures !Holds(Exec(s, events).db, s.cfg, token)
    ensures NoneBy(token, s, Exec(s, events))
    decreases |events|
  {
    if events != [] {
      var next := Do(s, events[0]);
      LostLockStaysLost(s, token, events[0]);
      LostLockIsLostForGood(next, token, events[1..]);
      RunExtends(next, events[1..]);
      NoneByChains(token, s, next, Exec(next, events[1..]));
    }
  }

  lemma NoneByChains(token: Token, s: State, next: State, later: State)
    requires NoneBy(token, s, next) && NoneBy(token, next, later) && next.stores <= later.stores
    ensures NoneBy(token, s, later)
  {
    forall i | |s.stores| <= i < |later.stores|
      ensures later.stores[i].token != token
    {
      if i < |next.stores| {
        assert later.stores[i] == next.stores[i];
      }
    }
  }

  /** A lock changes hands only by the read of the call that gets it. */
  lemma LockMoves(s: State, token: Token, e: Event)
    requires s.cfg.Valid() && Enabled(s, e)
    ensures Holds(Do(s, e).db, s.cfg, token) ==> Holds(s.db, s.cfg, token) || (e.Read? && e.token == token)
  {
  }

  lemma StoresMove(s: State, e: Event)
    requires Enabled(s, e)
    ensures var next := Do(s, e);
            || next.stores == s.stores
            || (&& e.StoreResult? && Holds(s.db, s.cfg, e.token)
                && next.stores == s.stores + [StoreRecord(e.token, s.calls[e.token].blob, s.db.now, s.epoch)])
  {
  }

  lemma LostLockIsNotRetaken(s: State, token: Token, e: Event)
    requires LeasesOk(s) && s.cfg.Valid() && token in s.leases && !Holds(s.db, s.cfg, token) && Enabled(s, e)
    ensures !Holds(Do(s, e).db, s.cfg, token) && NoneBy(token, s, Do(s, e))
  {
    LockMoves(s, token, e);
    StoresMove(s, e);
  }

  lemma LostLockStaysLost(s: State, token: Token, e: Event)
    requires Inv(s) && token in s.leases && !Holds(s.db, s.cfg, token) && Enabled(s, e)
    ensures var next := Do(s, e);
            && Inv(next) && token in next.leases && next.cfg == s.cfg
            && !Holds(next.db, s.cfg, token) && NoneBy(token, s, next)
  {
    StepPreserves(s, e);
    StepExtends(s, e);
    LostLockIsNotRetaken(s, token, e);
  }

  /** After an invalidation nothing whose computation had begun before it is ever stored, and
      whatever the cache shows is at least as new as the source was at that moment. */
  lemma InvalidationIsFinal(s: State, events: seq<Event>)
    requires Inv(s) && Run(Do(s, Invalidated), events)
    ensures var later := Exec(Do(s, Invalidated), events);
            && |s.stores| <= |later.stores|
            && (forall i | |s.stores| <= i < |later.stores| ::
                  later.stores[i].token !in s.leases && s.source <= later.stores[i].blob.version)
            && match later.db.Lookup(s.cfg.dataKey)
               case Some(Hash(blob, _)) => s.source <= blob.version
               case _ => true
  {
    var cut := Do(s, Invalidated);
    StepPreserves(s, Invalidated);
    NewStoresAreNew(cut, events);
    RunPreserves(cut, events);
    RunExtends(cut, events);
    var later := Exec(cut, events);
    forall i | |s.stores| <= i < |later.stores|
      ensures later.stores[i].token !in s.leases
    {
      assert StoreOk(later, later.stores[i]);
    }
  }

  /** The values stored from the given position on carry this epoch or a later one and show a
      source at least as new as `floor`. */
  ghost predicate NewFrom(from: nat, epoch: nat, floor: nat, stores: seq<StoreRecord>) {
    forall i | from <= i < |stores| :: epoch <= stores[i].epoch && floor <= stores[i].blob.version
  }

  lemma {:induction false} NewStoresAreNew(s: State, events: seq<Event>)
    requires Inv(s) && Run(s, events)
    ensures NewFrom(|s.stores|, s.epoch, s.barrier, Exec(s, events).stores)
    decreases |events|
  {
    if events != [] {
      var next := Do(s, events[0]);
      NewStoreIsNew(s, events[0]);
      RunExtends(next, events[1..]);
      NewStoresAreNew(next, events[1..]);
      NewFromChains(|s.stores|, s.epoch, s.barrier, next, Exec(next, events[1..]).stores);
    }
  }

  lemma NewFromChains(from: nat, epoch: nat, floor: nat, next: State, stores: seq<StoreRecord>)
    requires NewFrom(from, epoch, floor, next.stores) && next.stores <= stores
    requires NewFrom(|next.stores|, next.epoch, next.barrier, stores) && epoch <= next.epoch && floor <= next.barrier
    ensures NewFrom(from, epoch, floor, stores)
  {
    forall i | from <= i < |stores|
      ensures epoch <= stores[i].epoch && floor <= stores[i].blob.version
    {
      if i < |next.stores| {
        assert stores[i] == next.stores[i];
      }
    }
  }

  lemma NewStoreIsNew(s: State, e: Event)
    requires Inv(s) && Enabled(s, e)
    ensures var next := Do(s, e);
            && Inv(next) && s.epoch <= next.epoch && s.barrier <= next.barrier
            && NewFrom(|s.stores|, s.epoch, s.barrier, next.stores)
  {
    StepPreserves(s, e);
  }

  /** The staleness bound that follows from the lock expiry alone, whatever the delays between
      computing, stamping and storing and whatever the compute timeout: measured at the reader's
      clock, a value served as fresh was sampled less than ttl + 15 s ago, a stale one less than
      stale + 15 s ago; and so was a value that a waiter polls, measured at the poll. */
  lemma StalenessBound(start: State, events: seq<Event>)
    requires Init(start) && Run(start, events)
    ensures forall r <- Exec(start, events).serves ::
              && (r.ServedFresh? ==> 1000 * r.clock - r.blob.sampledAt < 1000 * (start.cfg.ttl + 15))
              && (r.ServedStale? ==> 1000 * r.clock - r.blob.sampledAt < 1000 * (start.cfg.stale + 15))
              && (r.ServedWaiter? ==> r.polledAt - r.blob.sampledAt < 1000 * (start.cfg.stale + 15))
  {
    InitEstablishes(start);
    RunPreserves(start, events);
    RunExtends(start, events);
    var s := Exec(start, events);
    forall r <- s.serves
      ensures ServeOk(start.cfg, r)
    {
      assert ServesOk(s);
    }
  }

  /** Single flight: no lock outlives 15 s, and of any two calls computing at the same moment one
      took the lock later, and only when the earlier one's had run out or been invalidated. */
  lemma SingleFlight(start: State, events: seq<Event>, a: Token, b: Token)
    requires Init(start) && Run(start, events)
    ensures var s := Exec(start, events);
            && (Holds(s.db, s.cfg, a) ==>
                  a in s.leases && s.leases[a].acquired <= s.db.now < s.leases[a].acquired + LOCK_MS)
            && (a != b && IsComputing(s, a) && IsComputing(s, b) ==>
                  if s.leases[a].rank < s.leases[b].rank then Succeeds(s.leases[a], s.leases[b])
                  else s.leases[b].rank < s.leases[a].rank && Succeeds(s.leases[b], s.leases[a]))
  {
    RunPreserves(start, events);
    var s := Exec(start, events);
    assert LockOk(s) && LeasesOk(s) && RanksOk(s) && OverlapOk(s);
  }

  /** A call that takes the lock does so only when every other call still computing has lost it,
      by expiry or by an invalidation. */
  lemma TakeoverOnlyAfterLoss(s: State, token: Token, slotFree: bool, other: Token)
    requires Inv(s) && Enabled(s, Read(token, slotFree))
    requires ReadReply(s.db, s.cfg, s.calls[token].clock).TookLock()
    requires other in s.calls && s.calls[other].Active()
    ensures s.leases[other].acquired + LOCK_MS <= s.db.now || s.leases[other].epoch < s.epoch
  {
    assert CallOk(s, other);
    assert TenureOk(s);
  }

  /** The call that takes a step; none for time, invalidations and other keys. */
  predicate StepOf(e: Event, token: Token) {
    match e
    case Tick(_) => false
    case OtherTraffic(_) => false
    case Publish(_) => false
    case Invalidated => false
    case _ => e.token == token
  }

  /** While a token holds the lock, nothing but time, an invalidation or a step of that very call
      changes the lock or the data: no call releases, overwrites or stores under another's lock. */
  lemma OthersLeaveALockedKeyAlone(s: State, owner: Token, e: Event)
    requires s.cfg.Valid() && Holds(s.db, s.cfg, owner) && Enabled(s, e)
    requires !StepOf(e, owner) && !e.Tick? && !e.Invalidated?
    ensures s.db.AgreesOn(Do(s, e).db, {s.cfg.dataKey, s.cfg.lockKey}) && Do(s, e).stores == s.stores
  {
    match e
    case Read(token, _) => assert !ReadReply(s.db, s.cfg, s.calls[token].clock).TookLock();
    case _ =>
  }

  // What waiters get.

  /** No value is stamped late. */
  predicate PromptStores(s: State, events: seq<Event>)
    requires Run(s, events)
    decreases |events|
  {
    events == [] ||
    (&& (events[0].StoreResult? ==> !Late(s.calls[events[0].token].clock, s.db.now))
     && PromptStores(Do(s, events[0]), events[1..]))
  }

  ghost predicate PromptData(s: State) {
    match s.db.Lookup(s.cfg.dataKey)
    case Some(Hash(_, storedAt)) => s.db.entries[s.cfg.dataKey].expiry.Some? && !Late(storedAt, Written(s))
    case _ => true
  }

  predicate NewServes(s: State) {
    forall r <- s.serves | r.ServedWaiter? :: r.missedAt <= r.written
  }

  ghost predicate PromptOk(s: State) {
    PromptData(s) && NewServes(s)
  }

  /** With prompt stores every value a waiter polls was stored after that waiter's own miss,
      which is what justifies handing it out as fresh with age zero. */
  lemma {:induction false} WaitersGetNewValues(s: State, events: seq<Event>)
    requires Inv(s) && Run(s, events) && PromptStores(s, events) && PromptOk(s)
    ensures forall r <- Exec(s, events).serves | r.ServedWaiter? :: r.missedAt <= r.written
    decreases |events|
  {
    if events != [] {
      StepPreserves(s, events[0]);
      PromptStep(s, events[0]);
      WaitersGetNewValues(Do(s, events[0]), events[1..]);
    }
  }

  lemma PromptDataStep(s: State, e: Event)
    requires s.cfg.Valid() && Enabled(s, e) && PromptData(s)
    requires e.StoreResult? ==> !Late(s.calls[e.token].clock, s.db.now)
    ensures PromptData(Do(s, e))
  {
  }

  lemma NewServesStep(s: State, e: Event)
    requires WaitersOk(s) && Enabled(s, e) && PromptOk(s)
    ensures NewServes(Do(s, e))
  {
  }

  lemma PromptStep(s: State, e: Event)
    requires Inv(s) && Enabled(s, e) && PromptOk(s)
    requires e.StoreResult? ==> !Late(s.calls[e.token].clock, s.db.now)
    ensures PromptOk(Do(s, e))
  {
    PromptDataStep(s, e);
    NewServesStep(s, e);
  }

  ghost predicate Reaches(s: State, later: State) {
    exists events :: Run(s, events) && Exec(s, events) == later
  }

  lemma ReachesItself(s: State)
    ensures Reaches(s, s)
  {
    assert Run(s, []) && Exec(s, []) == s;
  }

  lemma ReachesOneStepEarlier(s: State, e: Event, later: State)
    requires Enabled(s, e) && Reaches(Do(s, e), later)
    ensures Reaches(s, later)
  {
    var events :| Run(Do(s, e), events) && Exec(Do(s, e), events) == later;
    assert ([e] + events)[1..] == events;
    assert Run(s, [e] + events) && Exec(s, [e] + events) == later;
  }

  /** The condition is exact. From any state that shows a value stamped late, two further callers
      are enough for one of them to miss and then be handed that same value, written before its
      miss, as fresh with age zero. */
  lemma LateStampDefeatsWaiters(s: State, a: Token, b: Token) returns (later: State)
    requires Inv(s) && a !in s.calls && b !in s.calls && a != b
    requires s.db.Live(s.cfg.dataKey) && Late(s.db.entries[s.cfg.dataKey].value.storedAt, Written(s))
    ensures Reaches(s, later)
    ensures exists r <- later.serves :: r.ServedWaiter? && r.written < r.missedAt
  {
    var ms, s1 := ReachMissingTime(s);
    if s1.db.Live(s1.cfg.lockKey) {
      later := MissThenPoll(s1, b);
    } else {
      var s2 := Do(s1, Begin(a));
      var s3 := Do(s2, Read(a, true));
      later := MissThenPoll(s3, b);
      ReachesOneStepEarlier(s2, Read(a, true), later);
      ReachesOneStepEarlier(s1, Begin(a), later);
    }
    ReachesOneStepEarlier(s, Tick(ms), later);
  }

  /** The store still has the value, but a reader finds it too old. */
  ghost predicate Missing(s: State) {
    && s.db.Live(s.cfg.dataKey) && s.db.entries[s.cfg.dataKey].value.Hash? && s.db.entries[s.cfg.dataKey].expiry.Some?
    && s.cfg.stale < Seconds(s.db.now) - s.db.entries[s.cfg.dataKey].value.storedAt
    && Written(s) < s.db.now
  }

  lemma ReachMissingTime(s: State) returns (ms: nat, later: State)
    requires Inv(s) && s.db.Live(s.cfg.dataKey) && Late(s.db.entries[s.cfg.dataKey].value.storedAt, Written(s))
    ensures later == Do(s, Tick(ms)) && Missing(later)
  {
    var limit := 1000 * (s.db.entries[s.cfg.dataKey].value.storedAt + s.cfg.stale + 1);
    var target := if Written(s) < limit then limit else Written(s) + 1;
    ms := if s.db.now < target then target - s.db.now else 0;
    later := Do(s, Tick(ms));
  }

  lemma MissThenPoll(s: State, b: Token) returns (later: State)
    requires s.cfg.Valid() && Missing(s) && s.db.Live(s.cfg.lockKey) && b !in s.calls
    ensures Reaches(s, later)
    ensures exists r <- later.serves :: r.ServedWaiter? && r.written < r.missedAt
  {
    var s1 := Do(s, Begin(b));
    var s2 := Do(s1, Read(b, true));
    later := Do(s2, Poll(b));
    ReachesItself(later);
    ReachesOneStepEarlier(s2, Poll(b), later);
    ReachesOneStepEarlier(s1, Read(b, true), later);
    ReachesOneStepEarlier(s, Begin(b), later);
    assert later.serves[|s.serves|].ServedWaiter?;
  }

  lemma ReachStamped(start: State, t: Token) returns (s: State)
    requires Init(start)
    ensures s.cfg == start.cfg && s.calls == map[t := Stamped(Blob(s.source, s.db.now), Seconds(s.db.now))]
    ensures s.cfg.lockKey in s.db.entries && s.db.entries[s.cfg.lockKey] == Entry(Text(t), Some(s.db.now + LOCK_MS))
    ensures forall target :: Reaches(s, target) ==> Reaches(start, target)
  {
    var s1 := Do(start, Begin(t));
    var s2 := Do(s1, Read(t, true));
    var s3 := Do(s2, Sample(t));
    s := Do(s3, Stamp(t));
    forall target | Reaches(s, target)
      ensures Reaches(start, target)
    {
      ReachesOneStepEarlier(s3, Stamp(t), target);
      ReachesOneStepEarlier(s2, Sample(t), target);
      ReachesOneStepEarlier(s1, Read(t, true), target);
      ReachesOneStepEarlier(start, Begin(t), target);
    }
  }

  /** Such a state is reached from an empty cache: one caller stops for two seconds between reading
      the clock for its time stamp and storing. */
  lemma ReachLateStamp(start: State, t: Token) returns (s: State)
    requires Init(start)
    ensures s.calls.Keys == {t}
    ensures s.db.Live(s.cfg.dataKey) && s.db.entries[s.cfg.dataKey].value.Hash?
            && s.db.entries[s.cfg.dataKey].expiry.Some?
    ensures Late(s.db.entries[s.cfg.dataKey].value.storedAt, Written(s))
    ensures forall target :: Reaches(s, target) ==> Reaches(start, target)
  {
    var s1 := ReachStamped(start, t);
    var s2 := Do(s1, Tick(2000));
    s := Do(s2, StoreResult(t, false));
    forall target | Reaches(s, target)
      ensures Reaches(start, target)
    {
      ReachesOneStepEarlier(s2, StoreResult(t, false), target);
      ReachesOneStepEarlier(s1, Tick(2000), target);
    }
  }

  /** From every empty cache a run leads to a waiter that is handed a value, as fresh with age zero,
      which was written before its own miss. */
  lemma WaitersCanGetOldValues(start: State, t: Token, a: Token, b: Token) returns (later: State)
    requires Init(start) && a != b && t != a && t != b
    ensures Reaches(start, later)
    ensures exists r <- later.serves :: r.ServedWaiter? && r.written < r.missedAt
  {
    var s := ReachLateStamp(start, t);
    ReachesItself(s);
    InitEstablishes(start);
    var events :| Run(start, events) && Exec(start, events) == s;
    RunPreserves(start, events);
    later := LateStampDefeatsWaiters(s, a, b);
  }
}
