/** Request metrics, aggregated by minute, route and method and merged into the bucket table by an
    upsert. Durations are exact numbers here; the rounding of sums is not modelled. */
module Analytics {
  import opened Store
  import opened Selections

  datatype Metric = Metric(
    at: Time,
    route: string,
    method_: string,
    status: int,
    duration: real,
    bytes: nat,
    cacheHit: bool)
  {
    function Key(): Key {
      BucketKey(at / 60000, route, method_)
    }
  }

  datatype Key = BucketKey(minute: int, route: string, method_: string)

  datatype Row = Row(requests: nat, errors: nat, durationSum: real, durationMax: real, bytes: nat, hits: nat)

  type Table = map<Key, Row>

  const ZERO := Row(0, 0, 0.0, 0.0, 0, 0)

  function Max(a: real, b: real): real {
    if a >= b then a else b
  }

  function Bit(b: bool): nat {
    if b then 1 else 0
  }

  function Add(row: Row, m: Metric): Row {
    Row(row.requests + 1, row.errors + Bit(m.status >= 500), row.durationSum + m.duration,
        Max(row.durationMax, m.duration), row.bytes + m.bytes, row.hits + Bit(m.cacheHit))
  }

  /** What the conflict clause makes of the stored row and the new one. */
  function Combine(a: Row, b: Row): Row {
    Row(a.requests + b.requests, a.errors + b.errors, a.durationSum + b.durationSum,
        Max(a.durationMax, b.durationMax), a.bytes + b.bytes, a.hits + b.hits)
  }

  function Get(table: Table, k: Key): Row {
    if k in table then table[k] else ZERO
  }

  /** The aggregate of a stream of metrics. */
  function Fold(stream: seq<Metric>): Table {
    if stream == [] then map[]
    else
      var m := stream[|stream| - 1];
      var rest := Fold(stream[..|stream| - 1]);
      rest[m.Key() := Add(Get(rest, m.Key()), m)]
  }

  function Merge(table: Table, rows: Table): Table {
    map k <- table.Keys + rows.Keys ::
      if k in table && k in rows then Combine(table[k], rows[k]) else if k in table then table[k] else rows[k]
  }

  // The upsert statement takes the aggregated rows one by one.

  datatype KeyedRow = KeyedRow(key: Key, row: Row)

  predicate DistinctKeys(rows: seq<KeyedRow>) {
    forall i, j | 0 <= i < j < |rows| :: rows[i].key != rows[j].key
  }

  function AsTable(rows: seq<KeyedRow>): Table {
    if rows == [] then map[] else AsTable(rows[..|rows| - 1])[rows[|rows| - 1].key := rows[|rows| - 1].row]
  }

  /** None is the error of a statement that would touch one row twice. */
  function Upsert(table: Table, rows: seq<KeyedRow>): Option<Table> {
    if DistinctKeys(rows) then Some(UpsertEach(table, rows)) else None
  }

  function UpsertEach(table: Table, rows: seq<KeyedRow>): Table {
    if rows == [] then table
    else
      var last := rows[|rows| - 1];
      var rest := UpsertEach(table, rows[..|rows| - 1]);
      rest[last.key := if last.key in rest then Combine(rest[last.key], last.row) else last.row]
  }

  lemma MergeUpdate(x: Table, y: Table, k: Key, row: Row)
    ensures Merge(x, y[k := row]) == Merge(x, y)[k := if k in x then Combine(x[k], row) else row]
  {
  }

  lemma {:induction false} AsTableKeys(rows: seq<KeyedRow>, k: Key)
    ensures k in AsTable(rows) <==> exists i :: 0 <= i < |rows| && rows[i].key == k
  {
    if rows != [] {
      var n := |rows| - 1;
      AsTableKeys(rows[..n], k);
      if i :| 0 <= i < |rows| && rows[i].key == k && i < n {
        assert rows[..n][i].key == k;
      }
    }
  }

  lemma {:induction false} UpsertEachIsMerge(table: Table, rows: seq<KeyedRow>)
    requires DistinctKeys(rows)
    ensures UpsertEach(table, rows) == Merge(table, AsTable(rows))
  {
    if rows == [] {
      assert Merge(table, map[]) == table;
    } else {
      var n := |rows| - 1;
      UpsertEachIsMerge(table, rows[..n]);
      AsTableKeys(rows[..n], rows[n].key);
      MergeUpdate(table, AsTable(rows[..n]), rows[n].key, rows[n].row);
    }
  }

  // What the columns count.

  /** The positions of the metrics that are meant. */
  function Where(stream: seq<Metric>, meant: Metric -> bool): set<nat> {
    set i: nat | i < |stream| && meant(stream[i])
  }

  function InBucket(k: Key): Metric -> bool {
    (m: Metric) => m.Key() == k
  }

  function ErrorsIn(k: Key): Metric -> bool {
    (m: Metric) => m.Key() == k && 500 <= m.status
  }

  function HitsIn(k: Key): Metric -> bool {
    (m: Metric) => m.Key() == k && m.cacheHit
  }

  lemma WhereGrows(stream: seq<Metric>, m: Metric, meant: Metric -> bool)
    ensures |Where(stream + [m], meant)| == |Where(stream, meant)| + Bit(meant(m))
  {
    var all := stream + [m];
    assert all[|stream|] == m;
    assert forall i | 0 <= i < |stream| :: all[i] == stream[i];
    assert Where(all, meant) == Where(stream, meant) + if meant(m) then {|stream|} else {};
  }

  function TotalBytes(stream: seq<Metric>, k: Key): nat {
    if stream == [] then 0
    else (if stream[0].Key() == k then stream[0].bytes else 0) + TotalBytes(stream[1..], k)
  }

  function TotalDuration(stream: seq<Metric>, k: Key): real {
    if stream == [] then 0.0
    else (if stream[0].Key() == k then stream[0].duration else 0.0) + TotalDuration(stream[1..], k)
  }

  lemma {:induction false} TotalsGrow(stream: seq<Metric>, m: Metric, k: Key)
    ensures TotalBytes(stream + [m], k) == TotalBytes(stream, k) + if m.Key() == k then m.bytes else 0
    ensures TotalDuration(stream + [m], k) == TotalDuration(stream, k) + if m.Key() == k then m.duration else 0.0
  {
    if stream == [] {
      assert stream + [m] == [m] && [m][1..] == [];
    } else {
      TotalsGrow(stream[1..], m, k);
      assert (stream + [m])[1..] == stream[1..] + [m];
    }
  }

  /** The longest duration, which is never taken to be negative. */
  predicate IsLongest(stream: seq<Metric>, k: Key, longest: real) {
    && (forall i | 0 <= i < |stream| && stream[i].Key() == k :: stream[i].duration <= longest)
    && 0.0 <= longest
    && (longest == 0.0 || exists i :: 0 <= i < |stream| && stream[i].Key() == k && stream[i].duration == longest)
  }

  lemma LongestGrows(stream: seq<Metric>, m: Metric, k: Key, longest: real)
    requires IsLongest(stream, k, longest)
    ensures IsLongest(stream + [m], k, if m.Key() == k then Max(longest, m.duration) else longest)
  {
    var all := stream + [m];
    assert all[|stream|] == m && forall i | 0 <= i < |stream| :: all[i] == stream[i];
    if longest != 0.0 {
      var i :| 0 <= i < |stream| && stream[i].Key() == k && stream[i].duration == longest;
      assert all[i].Key() == k && all[i].duration == longest;
    }
  }

  /** The columns say how many metrics belong to the bucket, how many of them are server errors and
      cache hits, and what their durations and bytes come to. */
  ghost predicate ColumnsOk(row: Row, stream: seq<Metric>, k: Key) {
    && row.requests == |Where(stream, InBucket(k))|
    && row.errors == |Where(stream, ErrorsIn(k))| && row.hits == |Where(stream, HitsIn(k))|
    && row.bytes == TotalBytes(stream, k) && row.durationSum == TotalDuration(stream, k)
    && IsLongest(stream, k, row.durationMax)
  }

  lemma ColumnsGrow(row: Row, stream: seq<Metric>, m: Metric, k: Key)
    requires ColumnsOk(row, stream, k)
    ensures ColumnsOk(if m.Key() == k then Add(row, m) else row, stream + [m], k)
  {
    WhereGrows(stream, m, InBucket(k));
    WhereGrows(stream, m, ErrorsIn(k));
    WhereGrows(stream, m, HitsIn(k));
    TotalsGrow(stream, m, k);
    LongestGrows(stream, m, k, row.durationMax);
  }

  /** A bucket is there exactly if a metric belongs to it, and its columns are right. */
  lemma {:induction false} ColumnsAreExact(stream: seq<Metric>, k: Key)
    ensures k in Fold(stream) <==> exists i :: 0 <= i < |stream| && stream[i].Key() == k
    ensures ColumnsOk(Get(Fold(stream), k), stream, k)
  {
    if stream == [] {
      assert Where(stream, InBucket(k)) == {} && Where(stream, ErrorsIn(k)) == {} && Where(stream, HitsIn(k)) == {};
    } else {
      var n := |stream| - 1;
      var rest, m := stream[..n], stream[n];
      assert stream == rest + [m];
      ColumnsAreExact(rest, k);
      ColumnsGrow(Get(Fold(rest), k), rest, m, k);
      assert forall i | 0 <= i < n :: rest[i] == stream[i];
    }
  }

  /** A bucket covers one minute of one route and method. */
  lemma BucketsAreMinutes(m: Metric)
    ensures 60000 * m.Key().minute <= m.at < 60000 * (m.Key().minute + 1)
    ensures m.Key().route == m.route && m.Key().method_ == m.method_
  {
  }

  // Cutting the stream does not matter.

  lemma {:induction false} FoldRowsArePositive(stream: seq<Metric>, k: Key)
    requires k in Fold(stream)
    ensures Fold(stream)[k].durationMax >= 0.0
  {
    var m := stream[|stream| - 1];
    var rest := stream[..|stream| - 1];
    if k in Fold(rest) {
      FoldRowsArePositive(rest, k);
    }
  }

  lemma AddAfterCombine(r: Row, s: Row, m: Metric)
    requires r.durationMax >= 0.0
    ensures Combine(r, Add(s, m)) == Add(Combine(r, s), m) && Combine(r, Add(ZERO, m)) == Add(r, m)
  {
  }

  lemma AddToMerge(x: Table, y: Table, k: Key, m: Metric)
    requires k in x ==> x[k].durationMax >= 0.0
    ensures Merge(x, y[k := Add(Get(y, k), m)]) == Merge(x, y)[k := Add(Get(Merge(x, y), k), m)]
  {
    MergeUpdate(x, y, k, Add(Get(y, k), m));
    if k in x {
      AddAfterCombine(x[k], Get(y, k), m);
    }
  }

  /** The aggregate of a concatenation is the merge of the aggregates. */
  lemma {:induction false} FoldSplits(a: seq<Metric>, b: seq<Metric>)
    ensures Fold(a + b) == Merge(Fold(a), Fold(b))
    decreases |b|
  {
    if b == [] {
      assert a + b == a;
      assert Merge(Fold(a), map[]) == Fold(a);
    } else {
      var n := |b| - 1;
      var m, k := b[n], b[n].Key();
      FoldSplits(a, b[..n]);
      assert (a + b)[..|a + b| - 1] == a + b[..n];
      if k in Fold(a) {
        FoldRowsArePositive(a, k);
      }
      AddToMerge(Fold(a), Fold(b[..n]), k, m);
    }
  }

  lemma MergeAssociates(t: Table, x: Table, y: Table)
    ensures Merge(Merge(t, x), y) == Merge(t, Merge(x, y))
  {
  }

  function Concat(batches: seq<seq<Metric>>): seq<Metric> {
    if batches == [] then [] else Concat(batches[..|batches| - 1]) + batches[|batches| - 1]
  }

  function MergeAll(table: Table, batches: seq<seq<Metric>>): Table {
    if batches == [] then table
    else Merge(MergeAll(table, batches[..|batches| - 1]), Fold(batches[|batches| - 1]))
  }

  /** However the stream is cut into batches and whatever the table held before: aggregating and
      merging batch by batch gives the table that aggregating the whole stream at once gives. */
  lemma {:induction false} BatchingDoesNotMatter(table: Table, batches: seq<seq<Metric>>)
    ensures MergeAll(table, batches) == Merge(table, Fold(Concat(batches)))
  {
    if batches == [] {
      assert Merge(table, map[]) == table;
    } else {
      var n := |batches| - 1;
      BatchingDoesNotMatter(table, batches[..n]);
      FoldSplits(Concat(batches[..n]), batches[n]);
      MergeAssociates(table, Fold(Concat(batches[..n])), Fold(batches[n]));
    }
  }

  // The aggregation loop.

  /** The keys of a stream in the order of their first occurrence. */
  function Keys(stream: seq<Metric>): seq<Key> {
    if stream == [] then []
    else
      var rest := Keys(stream[..|stream| - 1]);
      var k := stream[|stream| - 1].Key();
      if k in rest then rest else rest + [k]
  }

  predicate NoDuplicates(keys: seq<Key>) {
    forall i, j | 0 <= i < j < |keys| :: keys[i] != keys[j]
  }

  function CountSum(keys: seq<Key>, buckets: Table): nat {
    if keys == [] then 0 else CountSum(keys[..|keys| - 1], buckets) + Get(buckets, keys[|keys| - 1]).requests
  }

  function RequestSum(rows: seq<KeyedRow>): nat {
    if rows == [] then 0 else RequestSum(rows[..|rows| - 1]) + rows[|rows| - 1].row.requests
  }

  lemma {:induction false} CountSumGrows(keys: seq<Key>, buckets: Table, k: Key, row: Row)
    requires NoDuplicates(keys) && row.requests == Get(buckets, k).requests + 1
    ensures CountSum(keys, buckets[k := row]) == CountSum(keys, buckets) + Bit(k in keys)
  {
    if keys != [] {
      CountSumGrows(keys[..|keys| - 1], buckets, k, row);
    }
  }

  /** What one more metric of the batch does to the keys and to the aggregate. */
  lemma OneMoreMetric(batch: seq<Metric>, i: nat)
    requires i < |batch|
    ensures var k, keys, rows := batch[i].Key(), Keys(batch[..i]), Fold(batch[..i]);
            && Keys(batch[..i + 1]) == (if k in keys then keys else keys + [k])
            && Fold(batch[..i + 1]) == rows[k := Add(Get(rows, k), batch[i])]
  {
    assert batch[..i + 1][..i] == batch[..i];
  }

  lemma CountNewKey(keys: seq<Key>, buckets: Table, k: Key)
    ensures CountSum(keys + [k], buckets) == CountSum(keys, buckets) + Get(buckets, k).requests
  {
    assert (keys + [k])[..|keys|] == keys;
  }

  /** The keys are those of the aggregate, each once, and its counts add up to the metrics. */
  lemma {:induction false} KeysOfTheAggregate(stream: seq<Metric>)
    ensures NoDuplicates(Keys(stream)) && forall k :: k in Keys(stream) <==> k in Fold(stream)
    ensures CountSum(Keys(stream), Fold(stream)) == |stream|
  {
    if stream != [] {
      var n := |stream| - 1;
      var m, rest := stream[n], stream[..n];
      var row := Add(Get(Fold(rest), m.Key()), m);
      KeysOfTheAggregate(rest);
      CountSumGrows(Keys(rest), Fold(rest), m.Key(), row);
      CountNewKey(Keys(rest), Fold(rest)[m.Key() := row], m.Key());
    }
  }

  function IsFirst(stream: seq<Metric>): nat -> bool {
    (i: nat) => i < |stream| && forall j | 0 <= j < i :: stream[j].Key() != stream[i].Key()
  }

  function KeyIfFirst(stream: seq<Metric>): nat -> seq<Key> {
    (i: nat) => if IsFirst(stream)(i) then [stream[i].Key()] else []
  }

  function KeyAt(stream: seq<Metric>): (nat, Key) -> bool {
    (i: nat, k: Key) => i < |stream| && stream[i].Key() == k
  }

  lemma KeySeen(stream: seq<Metric>, n: nat)
    requires n < |stream|
    ensures IsFirst(stream)(n) <==> stream[n].Key() !in Keys(stream[..n])
  {
    KeysOfTheAggregate(stream[..n]);
    ColumnsAreExact(stream[..n], stream[n].Key());
    assert forall j | 0 <= j < n :: stream[..n][j] == stream[j];
  }

  lemma NextKey(stream: seq<Metric>, n: nat)
    requires n < |stream|
    ensures Keys(stream[..n + 1]) == Keys(stream[..n]) + KeyIfFirst(stream)(n)
  {
    OneMoreMetric(stream, n);
    KeySeen(stream, n);
    assert Keys(stream[..n]) + [] == Keys(stream[..n]);
  }

  lemma {:induction false} KeysAreGathered(stream: seq<Metric>, n: nat)
    requires n <= |stream|
    ensures Keys(stream[..n]) == Gather(KeyIfFirst(stream), n)
  {
    if n > 0 {
      KeysAreGathered(stream, n - 1);
      NextKey(stream, n - 1);
    }
  }

  /** The keys come in the order in which they first appear. */
  lemma KeysInOrder(stream: seq<Metric>) returns (at: seq<nat>)
    ensures Selects(at, |stream|, IsFirst(stream)) && Fits(at, Keys(stream), KeyAt(stream))
  {
    at := Chosen(IsFirst(stream), |stream|);
    ChosenAreSelected(IsFirst(stream), |stream|);
    GatheredFit(KeyIfFirst(stream), IsFirst(stream), KeyAt(stream), |stream|);
    KeysAreGathered(stream, |stream|);
    assert stream[..|stream|] == stream;
  }

  method AggregateBuckets(batch: seq<Metric>) returns (order: seq<Key>, buckets: Table)
    ensures order == Keys(batch) && buckets == Fold(batch)
  {
    order, buckets := [], map[];
    for i := 0 to |batch|
      invariant order == Keys(batch[..i]) && buckets == Fold(batch[..i])
    {
      var metric := batch[i];
      var k := metric.Key();
      OneMoreMetric(batch, i);
      KeysOfTheAggregate(batch[..i]);
      var row := if k in buckets then buckets[k] else ZERO;
      if k !in buckets {
        order := order + [k];
      }
      buckets := buckets[k := Add(row, metric)];
    }
    assert batch[..|batch|] == batch;
  }

  ghost predicate RowsOf(order: seq<Key>, buckets: Table, rows: seq<KeyedRow>) {
    && NoDuplicates(order) && |rows| == |order|
    && forall j | 0 <= j < |rows| :: order[j] in buckets && rows[j] == KeyedRow(order[j], buckets[order[j]])
  }

  lemma {:induction false} RequestSumIsCountSum(order: seq<Key>, buckets: Table, rows: seq<KeyedRow>)
    requires RowsOf(order, buckets, rows)
    ensures RequestSum(rows) == CountSum(order, buckets)
  {
    if rows != [] {
      RequestSumIsCountSum(order[..|order| - 1], buckets, rows[..|rows| - 1]);
    }
  }

  lemma {:induction false} RowsMakeTheTable(order: seq<Key>, buckets: Table, rows: seq<KeyedRow>)
    requires RowsOf(order, buckets, rows)
    requires forall k <- buckets :: k in order
    ensures AsTable(rows) == buckets
  {
    RowsListed(order, buckets, rows);
  }

  lemma {:induction false} RowsListed(order: seq<Key>, buckets: Table, rows: seq<KeyedRow>)
    requires RowsOf(order, buckets, rows)
    ensures forall k :: k in AsTable(rows) <==> k in order
    ensures forall k <- order :: AsTable(rows)[k] == buckets[k]
  {
    if rows != [] {
      var n := |rows| - 1;
      RowsListed(order[..n], buckets, rows[..n]);
      assert order == order[..n] + [order[n]];
    }
  }

  method RowList(order: seq<Key>, buckets: Table) returns (rows: seq<KeyedRow>)
    requires NoDuplicates(order) && forall k :: k in order <==> k in buckets
    ensures RowsOf(order, buckets, rows)
  {
    rows := [];
    for i := 0 to |order|
      invariant |rows| == i && forall j | 0 <= j < i :: rows[j] == KeyedRow(order[j], buckets[order[j]])
    {
      rows := rows + [KeyedRow(order[i], buckets[order[i]])];
    }
  }

  /** One row per key, in the order in which the keys first appear; together the rows are the
      aggregate of the batch, and their counts add up to the number of metrics. */
  method Aggregate(batch: seq<Metric>) returns (rows: seq<KeyedRow>)
    ensures DistinctKeys(rows) && AsTable(rows) == Fold(batch)
    ensures |rows| == |Keys(batch)| && forall i | 0 <= i < |rows| :: rows[i].key == Keys(batch)[i]
    ensures RequestSum(rows) == |batch|
  {
    var order, buckets := AggregateBuckets(batch);
    KeysOfTheAggregate(batch);
    rows := RowList(order, buckets);
    RequestSumIsCountSum(order, buckets, rows);
    RowsMakeTheTable(order, buckets, rows);
  }

  /** The writer's statement: the upsert of an aggregated batch never touches a row twice and
      merges the aggregate into the table. */
  method WriteBatch(table: Table, batch: seq<Metric>) returns (result: Option<Table>)
    ensures result == Some(Merge(table, Fold(batch)))
  {
    var rows := Aggregate(batch);
    UpsertEachIsMerge(table, rows);
    result := Upsert(table, rows);
  }
}
