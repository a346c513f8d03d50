/** The hourly branch of GET /api/nodes/{id}/metrics: rollups merged with raw hourly groups. */
module HourlyMetrics {
  import opened Rollup

  datatype Row = Row(bucket: int, agg: Agg)

  function Cutoff(now: int, hours: nat): int { now - hours * 3600 }

  function BucketOf(ts: int): int { (ts / HOUR) * HOUR }

  /** Sorted by bucket, one row each. */
  predicate Increasing(rows: seq<Row>) {
    forall i, j :: 0 <= i < j < |rows| ==> rows[i].bucket < rows[j].bucket
  }

  predicate DistinctBuckets(rows: seq<Row>) {
    forall i, j :: 0 <= i < j < |rows| ==> rows[i].bucket != rows[j].bucket
  }

  predicate Lists(rows: seq<Row>, bucket: int) { exists i :: 0 <= i < |rows| && rows[i].bucket == bucket }

  /** The rows of the first query: rollups of the node with `from` <= bucket < `to`. */
  ghost predicate RolledQuery(s: Store, node: nat, from: int, to: int, rows: seq<Row>) {
    && Increasing(rows)
    && (forall b :: Lists(rows, b) <==> (node, b) in s.rollups && from <= b < to)
    && (forall i :: 0 <= i < |rows| ==>
      (node, rows[i].bucket) in s.rollups && rows[i].agg == s.rollups[(node, rows[i].bucket)])
  }

  /** The rows of the second query: raw samples from `cutoff` on, grouped by their hour. */
  ghost predicate RawQuery(s: Store, node: nat, cutoff: int, rows: seq<Row>) {
    var recent := KeepFrom(s.metrics, cutoff);
    && Increasing(rows)
    && (forall b :: Lists(rows, b) <==> b % HOUR == 0 && Select(recent, node, b) != [])
    && (forall i :: 0 <= i < |rows| ==> rows[i].agg == Aggregate(Select(recent, node, rows[i].bucket)))
  }

  function Insert(rows: seq<Row>, row: Row): (r: seq<Row>)
    ensures forall x :: x in r <==> x in rows || x == row
    ensures |r| == |rows| + 1
  {
    if rows == [] || row.bucket <= rows[0].bucket then [row] + rows
    else
      var rest := Insert(rows[1..], row);
      assert forall x :: x in rows <==> x == rows[0] || x in rows[1..];
      [rows[0]] + rest
  }

  /** list.sort by bucket */
  function Sort(rows: seq<Row>): (r: seq<Row>)
    ensures forall x :: x in r <==> x in rows
    ensures |r| == |rows|
  {
    if rows == [] then []
    else
      assert forall x :: x in rows <==> x == rows[0] || x in rows[1..];
      Insert(Sort(rows[1..]), rows[0])
  }

  lemma {:induction false} InsertIncreasing(rows: seq<Row>, row: Row)
    requires Increasing(rows) && forall i :: 0 <= i < |rows| ==> rows[i].bucket != row.bucket
    ensures Increasing(Insert(rows, row))
  {
    if rows != [] && row.bucket > rows[0].bucket {
      InsertIncreasing(rows[1..], row);
      var rest := Insert(rows[1..], row);
      forall j | 0 <= j < |rest| ensures rows[0].bucket < rest[j].bucket {
        assert rest[j] in rest;
        assert rest[j] in rows[1..] || rest[j] == row;
      }
    }
  }

  lemma {:induction false} SortIncreasing(rows: seq<Row>)
    requires DistinctBuckets(rows)
    ensures Increasing(Sort(rows))
  {
    if rows != [] {
      SortIncreasing(rows[1..]);
      var rest := Sort(rows[1..]);
      forall i | 0 <= i < |rest| ensures rest[i].bucket != rows[0].bucket {
        assert rest[i] in rows[1..];
      }
      InsertIncreasing(rest, rows[0]);
    }
  }

  /** The rolled rows, and the raw rows of the buckets that are not rolled. */
  function Merge(rolled: seq<Row>, raw: seq<Row>): (r: seq<Row>)
    ensures forall x :: x in r <==> x in rolled || (x in raw && !Lists(rolled, x.bucket))
  {
    if raw == [] then rolled
    else
      var rest, last := Merge(rolled, raw[..|raw| - 1]), raw[|raw| - 1];
      assert forall x :: x in raw <==> x == last || x in raw[..|raw| - 1];
      if Lists(rolled, last.bucket) then rest else rest + [last]
  }

  lemma {:induction false} MergeDistinct(rolled: seq<Row>, raw: seq<Row>)
    requires Increasing(rolled) && Increasing(raw)
    ensures DistinctBuckets(Merge(rolled, raw))
  {
    if raw != [] {
      var rest, last := raw[..|raw| - 1], raw[|raw| - 1];
      MergeDistinct(rolled, rest);
      var r := Merge(rolled, rest);
      if !Lists(rolled, last.bucket) {
        forall i | 0 <= i < |r| ensures r[i].bucket != last.bucket { EarlierRow(rolled, raw, r[i]); }
        assert Merge(rolled, raw) == r + [last];
      }
    }
  }

  lemma EarlierRow(rolled: seq<Row>, raw: seq<Row>, row: Row)
    requires Increasing(raw) && raw != [] && !Lists(rolled, raw[|raw| - 1].bucket)
    requires row in rolled || row in raw[..|raw| - 1]
    ensures row.bucket != raw[|raw| - 1].bucket
  {
    if row in rolled {
      var k :| 0 <= k < |rolled| && rolled[k] == row;
    } else {
      var k :| 0 <= k < |raw| - 1 && raw[..|raw| - 1][k] == row;
      assert raw[k] == row;
    }
  }

  /** The Python part of the endpoint. */
  method Hourly(rolled: seq<Row>, raw: seq<Row>) returns (rows: seq<Row>)
    ensures rows == Sort(Merge(rolled, raw))
  {
    var rollupBuckets: set<int> := {};
    var i := 0;
    while i < |rolled|
      invariant i <= |rolled|
      invariant forall b :: b in rollupBuckets <==> exists k :: 0 <= k < i && rolled[k].bucket == b
    {
      rollupBuckets := rollupBuckets + {rolled[i].bucket};
      i := i + 1;
    }
    var combined := rolled;
    i := 0;
    while i < |raw|
      invariant i <= |raw| && combined == Merge(rolled, raw[..i])
    {
      assert raw[..i + 1][..i] == raw[..i];
      if raw[i].bucket !in rollupBuckets {
        combined := combined + [raw[i]];
      }
      i := i + 1;
    }
    assert raw[..|raw|] == raw;
    rows := Sort(combined);
  }

  predicate Direct(s: Store, node: nat, rows: seq<Row>, bucket: int) {
    && (Lists(rows, bucket) <==> Select(s.all, node, bucket) != [])
    && (forall i :: 0 <= i < |rows| && rows[i].bucket == bucket ==>
      rows[i].agg == Aggregate(Select(s.all, node, bucket)))
  }

  /** A row of the answer comes from one of the two queries, and either way it is the direct aggregate. */
  lemma RowIsDirect(s: Store, keep: Retention, node: nat, from: int, to: int, cutoff: int, rolled: seq<Row>,
                    raw: seq<Row>, row: Row)
    requires Exact(s, keep) && RolledQuery(s, node, from, to, rolled) && RawQuery(s, node, cutoff, raw)
    requires row in Merge(rolled, raw) && s.horizon <= row.bucket && cutoff <= row.bucket
    ensures Select(s.all, node, row.bucket) != [] && row.agg == Aggregate(Select(s.all, node, row.bucket))
  {
    SelectAfterKeep(s.all, s.horizon, node, row.bucket);
    SelectAfterKeep(s.metrics, cutoff, node, row.bucket);
    if row in rolled {
      var k :| 0 <= k < |rolled| && rolled[k] == row;
      assert RowExact(s.all, s.clock, (node, row.bucket), s.rollups[(node, row.bucket)]);
    } else {
      var k :| 0 <= k < |raw| && raw[k] == row;
      assert Lists(raw, row.bucket);
    }
  }

  /** An hour with samples is in the answer. */
  lemma HourIsListed(s: Store, node: nat, cutoff: int, rolled: seq<Row>, raw: seq<Row>, b: int)
    requires s.metrics == KeepFrom(s.all, s.horizon) && RawQuery(s, node, cutoff, raw)
    requires b % HOUR == 0 && s.horizon <= b && cutoff <= b && Select(s.all, node, b) != []
    ensures exists row :: row in Merge(rolled, raw) && row.bucket == b
  {
    SelectAfterKeep(s.all, s.horizon, node, b);
    SelectAfterKeep(s.metrics, cutoff, node, b);
    assert Lists(raw, b);
    var k :| 0 <= k < |raw| && raw[k].bucket == b;
    if Lists(rolled, b) {
      var m :| 0 <= m < |rolled| && rolled[m].bucket == b;
      assert rolled[m] in Merge(rolled, raw);
    } else {
      assert raw[k] in Merge(rolled, raw);
    }
  }

  /** For every hour at or after both the requested cutoff and the raw-retention horizon the endpoint
      lists exactly the hours with samples, with their direct aggregates, each once, in increasing order. */
  lemma HourlyIsDirectAggregation(s: Store, keep: Retention, node: nat, hours: nat, now: int, rolled: seq<Row>,
                                  raw: seq<Row>)
    requires Exact(s, keep) && s.clock <= now
    requires RolledQuery(s, node, BucketOf(Cutoff(now, hours)), BucketOf(now), rolled)
    requires RawQuery(s, node, Cutoff(now, hours), raw)
    ensures var rows := Sort(Merge(rolled, raw));
      && Increasing(rows)
      && (forall i :: 0 <= i < |rows| ==> now - hours * 3600 < rows[i].bucket + 3600 && rows[i].bucket <= now)
      && forall b :: b % 3600 == 0 && b >= now - hours * 3600 && b >= now - keep.rawDays * 86400 ==>
           Direct(s, node, rows, b)
  {
    NothingOutside(s, keep, node, hours, now, rolled, raw);
    MergeDistinct(rolled, raw);
    SortIncreasing(Merge(rolled, raw));
    var rows, cutoff := Sort(Merge(rolled, raw)), Cutoff(now, hours);
    forall b | b % HOUR == 0 && b >= cutoff && b >= now - Days(keep.rawDays) ensures Direct(s, node, rows, b) {
      HourIsDirect(s, keep, node, BucketOf(cutoff), BucketOf(now), cutoff, rolled, raw, rows, b);
    }
  }

  /** Nothing from before the hour of the cutoff or from after now. */
  lemma NothingOutside(s: Store, keep: Retention, node: nat, hours: nat, now: int, rolled: seq<Row>, raw: seq<Row>)
    requires Exact(s, keep) && s.clock <= now
    requires RolledQuery(s, node, BucketOf(Cutoff(now, hours)), BucketOf(now), rolled)
    requires RawQuery(s, node, Cutoff(now, hours), raw)
    ensures forall row :: row in Sort(Merge(rolled, raw)) ==>
      now - hours * 3600 < row.bucket + 3600 && row.bucket <= now
  {
    forall row | row in Sort(Merge(rolled, raw)) ensures now - hours * 3600 < row.bucket + 3600 && row.bucket <= now {
      if row in rolled {
        RowIsListed(rolled, row);
      } else {
        RowIsListed(raw, row);
        RawIsRecent(s, node, Cutoff(now, hours), row.bucket);
      }
    }
  }

  lemma RawIsRecent(s: Store, node: nat, cutoff: int, b: int)
    requires s.metrics == KeepFrom(s.all, s.horizon) && (forall i :: 0 <= i < |s.all| ==> s.all[i].ts <= s.clock)
    requires Select(KeepFrom(s.metrics, cutoff), node, b) != []
    ensures cutoff < b + HOUR && b <= s.clock
  {
    var recent := KeepFrom(s.metrics, cutoff);
    var i :| 0 <= i < |recent| && InHour(recent[i], node, b);
    KeepFromKeeps(s.metrics, cutoff, recent[i]);
    KeepFromKeeps(s.all, s.horizon, recent[i]);
    assert recent[i] in s.all;
  }

  lemma HourIsDirect(s: Store, keep: Retention, node: nat, from: int, to: int, cutoff: int,
                     rolled: seq<Row>, raw: seq<Row>, rows: seq<Row>, b: int)
    requires Exact(s, keep) && RolledQuery(s, node, from, to, rolled) && RawQuery(s, node, cutoff, raw)
    requires forall x :: x in rows <==> x in Merge(rolled, raw)
    requires b % HOUR == 0 && s.horizon <= b && cutoff <= b
    ensures Direct(s, node, rows, b)
  {
    forall i | 0 <= i < |rows| && rows[i].bucket == b
      ensures Select(s.all, node, b) != [] && rows[i].agg == Aggregate(Select(s.all, node, b))
    {
      assert rows[i] in rows;
      RowIsDirect(s, keep, node, from, to, cutoff, rolled, raw, rows[i]);
    }
    if Select(s.all, node, b) != [] {
      HourIsListed(s, node, cutoff, rolled, raw, b);
      var row :| row in Merge(rolled, raw) && row.bucket == b;
      assert row in rows;
    }
  }

  /** Hours whose samples are all deleted are listed exactly when they were rolled up, with the direct aggregate. */
  lemma OldHoursAreTheRolledOnes(s: Store, keep: Retention, node: nat, hours: nat, now: int, rolled: seq<Row>,
                                 raw: seq<Row>, b: int)
    requires Exact(s, keep) && s.clock <= now
    requires RolledQuery(s, node, BucketOf(Cutoff(now, hours)), BucketOf(now), rolled)
    requires RawQuery(s, node, Cutoff(now, hours), raw)
    requires now - hours * 3600 <= b && b + HOUR <= s.horizon && b + HOUR <= now
    ensures var rows := Sort(Merge(rolled, raw));
      && (Lists(rows, b) <==> (node, b) in s.rollups)
      && (forall i :: 0 <= i < |rows| && rows[i].bucket == b ==> rows[i].agg == Aggregate(Select(s.all, node, b)))
  {
    var rows := Sort(Merge(rolled, raw));
    NothingLeft(s, node, Cutoff(now, hours), b);
    forall row | row in raw ensures Lists(raw, row.bucket) { RowIsListed(raw, row); }
    forall i | 0 <= i < |rows| && rows[i].bucket == b
      ensures (node, b) in s.rollups && rows[i].agg == Aggregate(Select(s.all, node, b))
    {
      assert rows[i] in rows;
      var k :| 0 <= k < |rolled| && rolled[k] == rows[i];
      assert RowExact(s.all, s.clock, (node, b), s.rollups[(node, b)]);
    }
    if (node, b) in s.rollups {
      assert Lists(rolled, b);
      var k :| 0 <= k < |rolled| && rolled[k].bucket == b;
      assert rolled[k] in rows;
    }
  }

  lemma RowIsListed(rows: seq<Row>, row: Row)
    requires row in rows
    ensures Lists(rows, row.bucket)
  {
    var k :| 0 <= k < |rows| && rows[k] == row;
  }

  lemma NothingLeft(s: Store, node: nat, cutoff: int, b: int)
    requires s.metrics == KeepFrom(s.all, s.horizon) && b + HOUR <= s.horizon
    ensures Select(KeepFrom(s.metrics, cutoff), node, b) == []
  {
    var recent := KeepFrom(s.metrics, cutoff);
    forall i | 0 <= i < |recent| ensures !InHour(recent[i], node, b) {
      assert recent[i] in recent;
      KeepFromKeeps(s.metrics, cutoff, recent[i]);
      KeepFromKeeps(s.all, s.horizon, recent[i]);
    }
  }
}
