/** The launch ingestion job: the configured sources are tried in order and the first one that
    answers replaces every upcoming launch in one transaction. */
module Launches {
  import opened Store
  import opened Selections

  /** The columns that an upsert overwrites, gathered in `details`, and the two it treats apart. */
  datatype Launch = Launch(id: string, start: Time, provider: string, details: string)

  datatype Row = Row(start: Option<Time>, provider: string, details: string)

  type Table = map<string, Row>

  predicate Upcoming(row: Row, now: Time) {
    row.start.Some? && now <= row.start.value
  }

  /** One statement may not touch the same row twice. */
  predicate DistinctIds(launches: seq<Launch>) {
    forall i, j | 0 <= i < j < |launches| :: launches[i].id != launches[j].id
  }

  function Ids(launches: seq<Launch>): set<string> {
    set l <- launches :: l.id
  }

  function UpsertOne(table: Table, l: Launch): Table {
    table[l.id := Row(Some(l.start), if l.id in table then table[l.id].provider else l.provider, l.details)]
  }

  function Upsert(table: Table, launches: seq<Launch>): Table {
    if launches == [] then table
    else UpsertOne(Upsert(table, launches[..|launches| - 1]), launches[|launches| - 1])
  }

  function DeleteOtherUpcoming(table: Table, keep: set<string>, now: Time): Table {
    map id <- table | !Upcoming(table[id], now) || id in keep :: table[id]
  }

  function Replaced(table: Table, launches: seq<Launch>, now: Time): Table {
    DeleteOtherUpcoming(Upsert(table, launches), Ids(launches), now)
  }

  /** The row of a launch that is in the list, after an upsert into `table`. */
  function RowOf(table: Table, l: Launch): Row {
    Row(Some(l.start), if l.id in table then table[l.id].provider else l.provider, l.details)
  }

  lemma {:induction false} UpsertKeys(table: Table, launches: seq<Launch>)
    ensures Upsert(table, launches).Keys == table.Keys + Ids(launches)
  {
    if launches != [] {
      var n := |launches| - 1;
      UpsertKeys(table, launches[..n]);
      assert launches == launches[..n] + [launches[n]];
      assert Ids(launches) == Ids(launches[..n]) + {launches[n].id};
    }
  }

  lemma {:induction false} UpsertListed(table: Table, launches: seq<Launch>, k: nat)
    requires DistinctIds(launches) && k < |launches|
    ensures launches[k].id in Upsert(table, launches)
    ensures Upsert(table, launches)[launches[k].id] == RowOf(table, launches[k])
  {
    var n := |launches| - 1;
    if k < n {
      UpsertListed(table, launches[..n], k);
    } else {
      UpsertUnlisted(table, launches[..n], launches[n].id);
    }
  }

  lemma {:induction false} UpsertUnlisted(table: Table, launches: seq<Launch>, id: string)
    requires forall i | 0 <= i < |launches| :: launches[i].id != id
    ensures id in Upsert(table, launches) <==> id in table
    ensures id in table ==> Upsert(table, launches)[id] == table[id]
  {
    if launches != [] {
      UpsertUnlisted(table, launches[..|launches| - 1], id);
    }
  }

  /** What a replacement leaves behind, row by row: every listed launch, with the old provider if
      the id was already present; besides those no upcoming row at all; and every past or
      undated row that is not listed, untouched. */
  lemma ReplacementContents(table: Table, launches: seq<Launch>, now: Time)
    requires DistinctIds(launches)
    ensures var after := Replaced(table, launches, now);
            && (forall l <- launches :: l.id in after && after[l.id] == RowOf(table, l))
            && (forall l <- launches ::
                  && after[l.id].start == Some(l.start) && after[l.id].details == l.details
                  && after[l.id].provider == if l.id in table then table[l.id].provider else l.provider)
            && (forall id <- after | id !in Ids(launches) ::
                  id in table && after[id] == table[id] && !Upcoming(table[id], now))
            && (forall id <- table | id !in Ids(launches) && !Upcoming(table[id], now) ::
                  id in after && after[id] == table[id])
  {
    UpsertKeys(table, launches);
    forall l <- launches
      ensures l.id in Upsert(table, launches) && Upsert(table, launches)[l.id] == RowOf(table, l)
    {
      var k :| 0 <= k < |launches| && launches[k] == l;
      UpsertListed(table, launches, k);
    }
    forall id <- table | id !in Ids(launches)
      ensures Upsert(table, launches)[id] == table[id]
    {
      UpsertUnlisted(table, launches, id);
    }
  }

  /** The upcoming rows are exactly the upcoming launches of the list: nothing of another source
      or of an earlier list is left over. */
  lemma UpcomingRowsAreTheList(table: Table, launches: seq<Launch>, now: Time)
    requires DistinctIds(launches)
    ensures var after := Replaced(table, launches, now);
            (set id <- after | Upcoming(after[id], now)) == (set l <- launches | now <= l.start :: l.id)
  {
    ReplacementContents(table, launches, now);
    var after := Replaced(table, launches, now);
    forall id <- after | Upcoming(after[id], now)
      ensures exists l <- launches :: now <= l.start && l.id == id
    {
      assert id in Ids(launches);
      var l :| l in launches && l.id == id;
      assert after[l.id] == RowOf(table, l);
    }
  }

  /** Replacing twice with the same list at the same instant is replacing once. */
  lemma ReplacementIsIdempotent(table: Table, launches: seq<Launch>, now: Time)
    requires DistinctIds(launches)
    ensures Replaced(Replaced(table, launches, now), launches, now) == Replaced(table, launches, now)
  {
    var once := Replaced(table, launches, now);
    var twice := Replaced(once, launches, now);
    ReplacementContents(table, launches, now);
    ReplacementContents(once, launches, now);
    forall id | id in once || id in twice
      ensures id in once && id in twice && once[id] == twice[id]
    {
      if id in Ids(launches) {
        var l :| l in launches && l.id == id;
        assert once[l.id] == RowOf(table, l) && twice[l.id] == RowOf(once, l);
      } else if id in once {
        assert once[id] == table[id] && !Upcoming(table[id], now);
        assert id in twice;
      }
    }
    assert once == twice;
  }

  /** What one source does when it is asked: its fetch fails, or it returns a list, for which the
      transaction is tried at `now`; its commit may fail or, worse, only seem to. The texts are what is reported of a
      failing fetch and of a failing transaction. */
  datatype Answer =
    | FetchFails(error: string)
    | Fetched(launches: seq<Launch>, now: Time, commit: Outcome, fault: string)

  /** `recorded` says whether the health write for this source gets through. */
  datatype Source = Source(provider: string, answer: Answer, recorded: bool)

  /** A source succeeds if it returns a list that is not empty and can be stored. */
  predicate Succeeds(answer: Answer) {
    answer.Fetched? && answer.launches != [] && DistinctIds(answer.launches) && answer.commit.Replied?
  }

  predicate Useful(source: Source, configured: set<string>) {
    source.provider in configured && Succeeds(source.answer)
  }

  /** The position of the first configured source that succeeds. */
  function FirstSuccess(sources: seq<Source>, configured: set<string>): Option<nat> {
    if sources == [] then None
    else if Useful(sources[0], configured) then Some(0)
    else
      match FirstSuccess(sources[1..], configured)
      case None => None
      case Some(k) => Some(k + 1)
  }

  /** The reported error of a source that does not succeed. */
  function ErrorOf(source: Source): string {
    match source.answer
    case FetchFails(error) => error
    case Fetched(launches, _, _, fault) =>
      if launches != [] then fault
      else Clip("ProviderUnavailableError: " + source.provider + " returned no upcoming launches")
  }

  function Clip(s: string): string {
    if |s| <= 300 then s else s[..300]
  }

  datatype Health = Active | Error(message: string)

  /** The status that one source leaves in the health table. */
  function StatusOf(source: Source): Health {
    if Succeeds(source.answer) then Active else Error(ErrorOf(source))
  }

  function Recorded(health: map<string, Health>, source: Source, status: Health): map<string, Health> {
    if source.recorded then health[source.provider := status] else health
  }

  /** The health table after the sources have been tried in order. */
  function Reported(health: map<string, Health>, sources: seq<Source>, configured: set<string>): map<string, Health>
    decreases |sources|
  {
    if sources == [] then health
    else if sources[0].provider !in configured then Reported(health, sources[1..], configured)
    else if Succeeds(sources[0].answer) then Recorded(health, sources[0], StatusOf(sources[0]))
    else Reported(Recorded(health, sources[0], StatusOf(sources[0])), sources[1..], configured)
  }

  /** The failure entries of the configured sources. */
  function Failing(sources: seq<Source>, configured: set<string>): seq<string> {
    if sources == [] then []
    else
      (if sources[0].provider in configured then [Entry(sources[0])] else [])
      + Failing(sources[1..], configured)
  }

  function Joined(entries: seq<string>): string {
    if entries == [] then "" else if |entries| == 1 then entries[0] else entries[0] + "; " + Joined(entries[1..])
  }

  /** The entry names the source and says what went wrong with it. */
  predicate Explains(entry: string, source: Source) {
    match source.answer
    case FetchFails(error) => entry == source.provider + ": " + error
    case Fetched(launches, _, _, fault) =>
      if launches != [] then entry == source.provider + ": " + fault
      else
        var error := "ProviderUnavailableError: " + source.provider + " returned no upcoming launches";
        entry == source.provider + ": " + if |error| <= 300 then error else error[..300]
  }

  function IsConfigured(sources: seq<Source>, configured: set<string>): nat -> bool {
    (i: nat) => i < |sources| && sources[i].provider in configured
  }

  function EntryAt(sources: seq<Source>, configured: set<string>): nat -> seq<string> {
    (i: nat) => if i < |sources| && sources[i].provider in configured then [Entry(sources[i])] else []
  }

  function ExplainsAt(sources: seq<Source>): (nat, string) -> bool {
    (i: nat, entry: string) => i < |sources| && Explains(entry, sources[i])
  }

  lemma {:induction false} FailingAppend(sources: seq<Source>, last: Source, configured: set<string>)
    ensures Failing(sources + [last], configured) ==
            Failing(sources, configured) + (if last.provider in configured then [Entry(last)] else [])
  {
    if sources == [] {
      assert sources + [last] == [last] && [last][1..] == [];
    } else {
      FailingAppend(sources[1..], last, configured);
      assert (sources + [last])[1..] == sources[1..] + [last];
    }
  }

  lemma {:induction false} FailingIsGathered(sources: seq<Source>, configured: set<string>, n: nat)
    requires n <= |sources|
    ensures Failing(sources[..n], configured) == Gather(EntryAt(sources, configured), n)
  {
    if n > 0 {
      FailingIsGathered(sources, configured, n - 1);
      FailingAppend(sources[..n - 1], sources[n - 1], configured);
      assert sources[..n] == sources[..n - 1] + [sources[n - 1]];
    }
  }

  /** The failure entries are those of exactly the configured sources, in order, each with its own
      error. */
  lemma FailuresAreExplained(sources: seq<Source>, configured: set<string>) returns (at: seq<nat>)
    ensures Selects(at, |sources|, IsConfigured(sources, configured))
    ensures Fits(at, Failing(sources, configured), ExplainsAt(sources))
  {
    at := Chosen(IsConfigured(sources, configured), |sources|);
    ChosenAreSelected(IsConfigured(sources, configured), |sources|);
    GatheredFit(EntryAt(sources, configured), IsConfigured(sources, configured), ExplainsAt(sources), |sources|);
    FailingIsGathered(sources, configured, |sources|);
    assert sources[..|sources|] == sources;
  }

  /** The message lists the entries in order with "; " between them. */
  lemma {:induction false} JoinedInOrder(a: seq<string>, b: seq<string>)
    ensures |a| == 1 ==> Joined(a) == a[0]
    ensures a != [] && b != [] ==> Joined(a + b) == Joined(a) + "; " + Joined(b)
  {
    if |a| == 1 && b != [] {
      assert (a + b)[1..] == b;
    } else if |a| > 1 && b != [] {
      JoinedInOrder(a[1..], b);
      assert (a + b)[1..] == a[1..] + b;
      var head := a[0] + "; ";
      assert head + (Joined(a[1..]) + "; " + Joined(b)) == head + Joined(a[1..]) + "; " + Joined(b);
    }
  }

  function Complaint(failures: seq<string>): string {
    if failures == [] then "No launch provider is configured" else Joined(failures)
  }

  /** The table after one source has been asked: its list has been stored unless the transaction
      has failed, even if the source does not count as a success. */
  function AfterAsking(table: Table, answer: Answer): Table {
    if answer.Fetched? && answer.launches != [] && DistinctIds(answer.launches) && !answer.commit.NotReached?
    then Replaced(table, answer.launches, answer.now)
    else table
  }

  /** The table after the sources have been tried in order. */
  function Stored(table: Table, sources: seq<Source>, configured: set<string>): Table
    decreases |sources|
  {
    if sources == [] then table
    else if sources[0].provider !in configured then Stored(table, sources[1..], configured)
    else if Succeeds(sources[0].answer) then AfterAsking(table, sources[0].answer)
    else Stored(AfterAsking(table, sources[0].answer), sources[1..], configured)
  }

  /** The commit of a list was carried out but is taken for a failure. */
  predicate CommitUnnoticed(source: Source, configured: set<string>) {
    && source.provider in configured && source.answer.Fetched? && source.answer.commit.ReplyLost?
    && source.answer.launches != [] && DistinctIds(source.answer.launches)
  }

  /** A source is asked if it is configured and no source before it has succeeded. */
  predicate Asked(sources: seq<Source>, configured: set<string>, i: nat)
    requires i < |sources|
  {
    && sources[i].provider in configured
    && forall j | 0 <= j < i :: !Useful(sources[j], configured)
  }

  /** What the job leaves in the table. If a source succeeds, the last thing that happens is the
      replacement by its list; if moreover no commit before it went unnoticed, nothing else does. If
      none succeeds, and no commit went unnoticed, no row changes. */
  lemma {:induction false} StoredBySuccess(table: Table, sources: seq<Source>, configured: set<string>)
    returns (before: Table)
    ensures match FirstSuccess(sources, configured)
            case None => Stored(table, sources, configured) == before
            case Some(k) =>
              && k < |sources| && sources[k].answer.Fetched?
              && Stored(table, sources, configured) ==
                 Replaced(before, sources[k].answer.launches, sources[k].answer.now)
    ensures (forall i | 0 <= i < |sources| ::
            Asked(sources, configured, i) ==> !CommitUnnoticed(sources[i], configured))
            ==> before == table
    decreases |sources|
  {
    before := table;
    if sources != [] && !Useful(sources[0], configured) {
      var next := if sources[0].provider in configured then AfterAsking(table, sources[0].answer) else table;
      AskedFurtherOn(sources, configured);
      before := StoredBySuccess(next, sources[1..], configured);
      if forall i | 0 <= i < |sources| :: Asked(sources, configured, i) ==> !CommitUnnoticed(sources[i], configured) {
        forall i | 0 <= i < |sources[1..]|
          ensures Asked(sources[1..], configured, i) ==> !CommitUnnoticed(sources[1..][i], configured)
        {
          assert sources[1..][i] == sources[i + 1];
        }
        assert Asked(sources, configured, 0) <==> sources[0].provider in configured;
        assert next == table;
      }
    }
  }

  lemma AskedFurtherOn(sources: seq<Source>, configured: set<string>)
    requires sources != [] && !Useful(sources[0], configured)
    ensures forall i | 0 <= i < |sources[1..]| ::
              Asked(sources[1..], configured, i) ==> Asked(sources, configured, i + 1)
  {
    forall i | 0 <= i < |sources[1..]| && Asked(sources[1..], configured, i)
      ensures Asked(sources, configured, i + 1)
    {
      assert forall j | 0 < j < i + 1 :: sources[j] == sources[1..][j - 1];
    }
  }

  /** An unnoticed commit does change rows: with this one source the job raises, and yet the table has
      been replaced. */
  lemma UnnoticedCommitChangesRows(table: Table, source: Source, configured: set<string>)
    requires CommitUnnoticed(source, configured)
    ensures FirstSuccess([source], configured) == None
    ensures Stored(table, [source], configured) == Replaced(table, source.answer.launches, source.answer.now)
  {
    var rest := [source][1..];
    assert rest == [] && FirstSuccess(rest, configured) == None;
    assert Stored(AfterAsking(table, source.answer), rest, configured) == AfterAsking(table, source.answer);
  }

  /** Everything that the job leaves behind: the two tables and the failure entries. */
  datatype Ledger = Ledger(table: Table, health: map<string, Health>, failures: seq<string>)

  function Entry(source: Source): string {
    source.provider + ": " + ErrorOf(source)
  }

  /** The ledger once the rest of the sources have been tried as well. */
  function Finished(l: Ledger, rest: seq<Source>, configured: set<string>): Ledger {
    Ledger(Stored(l.table, rest, configured), Reported(l.health, rest, configured),
        l.failures + Failing(rest, configured))
  }

  function AskedOne(l: Ledger, source: Source): Ledger {
    Ledger(AfterAsking(l.table, source.answer), Recorded(l.health, source, StatusOf(source)),
        l.failures + [Entry(source)])
  }

  /** What the next source does to it. */
  lemma NextSource(l: Ledger, sources: seq<Source>, configured: set<string>, i: nat)
    requires i < |sources|
    ensures var finished, after := Finished(l, sources[i..], configured), AskedOne(l, sources[i]);
            if sources[i].provider !in configured then finished == Finished(l, sources[i + 1..], configured)
            else if Succeeds(sources[i].answer) then finished.table == after.table && finished.health == after.health
            else finished == Finished(after, sources[i + 1..], configured)
  {
    var rest := sources[i + 1..];
    assert sources[i..][0] == sources[i] && sources[i..][1..] == rest;
    assert l.failures + ([Entry(sources[i])] + Failing(rest, configured))
           == AskedOne(l, sources[i]).failures + Failing(rest, configured);
  }

  class Database {
    var launches: Table
    var health: map<string, Health>

    /** One transaction: an upsert that leaves the provider column of present rows alone, then
        the deletion of every other upcoming row. It takes effect as a whole or not at all; a commit
        whose reply is lost takes effect and is reported as a failure. */
    method ReplaceUpcoming(list: seq<Launch>, now: Time, commit: Outcome) returns (ok: bool)
      modifies this`launches
      ensures ok <==> list != [] && DistinctIds(list) && commit.Replied?
      ensures launches ==
              if list != [] && DistinctIds(list) && !commit.NotReached? then Replaced(old(launches), list, now)
              else old(launches)
    {
      var distinct := Distinct(list);
      if list == [] || !distinct || commit.NotReached? {
        return false;
      }
      var table := launches;
      for i := 0 to |list|
        invariant table == Upsert(launches, list[..i])
      {
        table := UpsertOne(table, list[i]);
        assert list[..i + 1][..i] == list[..i];
      }
      assert list[..|list|] == list;
      launches := DeleteOtherUpcoming(table, Ids(list), now);
      ok := commit.Replied?;
    }

    method Distinct(list: seq<Launch>) returns (distinct: bool)
      ensures distinct == DistinctIds(list)
    {
      var seen: set<string> := {};
      for i := 0 to |list|
        invariant seen == Ids(list[..i])
        invariant DistinctIds(list[..i])
      {
        if list[i].id in seen {
          var l :| l in list[..i] && l.id == list[i].id;
          return false;
        }
        assert list[..i + 1] == list[..i] + [list[i]];
        seen := seen + {list[i].id};
      }
      assert list[..|list|] == list;
      distinct := true;
    }

    /** Health writes are best effort: they happen or not. */
    method RecordHealth(source: Source, status: Health)
      modifies this`health
      ensures health == Recorded(old(health), source, status)
    {
      if source.recorded {
        health := health[source.provider := status];
      }
    }

    /** Asks one source and records how that went. */
    method AskSource(source: Source) returns (ok: bool)
      modifies this
      ensures ok == Succeeds(source.answer)
      ensures launches == AfterAsking(old(launches), source.answer)
      ensures health == Recorded(old(health), source, StatusOf(source))
    {
      ok := false;
      if source.answer.Fetched? {
        ok := ReplaceUpcoming(source.answer.launches, source.answer.now, source.answer.commit);
      }
      RecordHealth(source, if ok then Active else Error(ErrorOf(source)));
    }

    /** Asks the configured sources until one succeeds. Raises with one failure entry for each of them
        when none does. */
    method Ingest(sources: seq<Source>, configured: set<string>) returns (used: Option<nat>, complaint: string)
      modifies this
      ensures used == FirstSuccess(sources, configured)
      ensures launches == Stored(old(launches), sources, configured)
      ensures used.None? ==>
                var failures := Failing(sources, configured);
                complaint == if failures == [] then "No launch provider is configured" else Joined(failures)
      ensures health == Reported(old(health), sources, configured)
    {
      FirstSuccessIsFirst(sources, configured);
      var failures: seq<string> := [];
      ghost var finished := Finished(Ledger(launches, health, []), sources, configured);
      assert finished.failures == Failing(sources, configured) && sources[0..] == sources;
      for i := 0 to |sources|
        invariant forall j | 0 <= j < i :: !Useful(sources[j], configured)
        invariant Finished(Ledger(launches, health, failures), sources[i..], configured) == finished
      {
        var source := sources[i];
        NextSource(Ledger(launches, health, failures), sources, configured, i);
        if source.provider in configured {
          var ok := AskSource(source);
          if ok {
            return Some(i), "";
          }
          failures := failures + [source.provider + ": " + ErrorOf(source)];
        }
      }
      assert finished == Ledger(launches, health, failures);
      used, complaint := None, Complaint(failures);
    }
  }

  /** `FirstSuccess` picks a configured source that succeeds and that no configured, succeeding
      source precedes; it picks none exactly when there is none. */
  lemma {:induction false} FirstSuccessIsFirst(sources: seq<Source>, configured: set<string>)
    ensures match FirstSuccess(sources, configured)
            case None => forall i | 0 <= i < |sources| :: !Useful(sources[i], configured)
            case Some(k) =>
              && k < |sources| && Useful(sources[k], configured)
              && forall i | 0 <= i < k :: !Useful(sources[i], configured)
  {
    if sources != [] {
      FirstSuccessIsFirst(sources[1..], configured);
      assert forall i | 0 < i < |sources| :: sources[i] == sources[1..][i - 1];
    }
  }

  predicate DistinctProviders(sources: seq<Source>) {
    forall i, j | 0 <= i < j < |sources| :: sources[i].provider != sources[j].provider
  }

  predicate Unchanged(before: map<string, Health>, after: map<string, Health>, provider: string) {
    (provider in after <==> provider in before) && (provider in before ==> after[provider] == before[provider])
  }

  lemma {:induction false} OthersKeepTheirHealth(health: map<string, Health>, sources: seq<Source>,
      configured: set<string>, provider: string)
    requires forall i | 0 <= i < |sources| ::
             Asked(sources, configured, i) && sources[i].recorded ==> sources[i].provider != provider
    ensures Unchanged(health, Reported(health, sources, configured), provider)
    decreases |sources|
  {
    if sources != [] && !Useful(sources[0], configured) {
      var first := sources[0];
      var next := if first.provider in configured then Recorded(health, first, StatusOf(first)) else health;
      assert Asked(sources, configured, 0) <==> sources[0].provider in configured;
      AskedFurtherOn(sources, configured);
      OthersKeepTheirHealth(next, sources[1..], configured, provider);
    } else if sources != [] {
      assert Asked(sources, configured, 0);
    }
  }

  /** A source that is asked and whose health write gets through is shown as active exactly if it
      has succeeded, and with its error otherwise. */
  lemma {:induction false} AskedSourcesAreReported(health: map<string, Health>, sources: seq<Source>,
      configured: set<string>, i: nat)
    requires DistinctProviders(sources) && i < |sources| && Asked(sources, configured, i) && sources[i].recorded
    ensures sources[i].provider in Reported(health, sources, configured)
    ensures Reported(health, sources, configured)[sources[i].provider] == StatusOf(sources[i])
    ensures var answer := sources[i].answer;
            var stored :=
              answer.Fetched? && answer.launches != [] && DistinctIds(answer.launches) && answer.commit.Replied?;
            match Reported(health, sources, configured)[sources[i].provider]
            case Active => stored
            case Error(message) => !stored && Explains(sources[i].provider + ": " + message, sources[i])
    decreases |sources|
  {
    var first := sources[0];
    var next := if first.provider in configured then Recorded(health, first, StatusOf(first)) else health;
    if i > 0 {
      assert !Useful(sources[0], configured);
      AskedSourcesAreReported(next, sources[1..], configured, i - 1);
    } else if !Succeeds(sources[0].answer) {
      OthersKeepTheirHealth(next, sources[1..], configured, sources[0].provider);
    }
  }
}
