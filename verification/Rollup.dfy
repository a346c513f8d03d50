/** Hourly rollups that replace raw metrics: the cache is exact.

    Averages are carried as sum and count of the non-NULL values; the clock is not negative. */
module Rollup {
  import opened Common

  const HOUR := 3600

  function Days(n: nat): int { n * 86400 }

  datatype Sample = Sample(
    node: nat, ts: int, cpu: Option<real>, ram: Option<real>, disk: Option<real>, load: Option<real>,
    rx: Option<real>, tx: Option<real>, connections: Option<int>)

  datatype Mean = Mean(sum: real, count: nat) {
    function With(v: Option<real>): Mean { if v.Some? then Mean(sum + v.value, count + 1) else this }
  }

  function MaxReal(a: Option<real>, b: Option<real>): Option<real> {
    if a.None? then b else if b.None? then a else if a.value < b.value then b else a
  }

  function MaxInt(a: Option<int>, b: Option<int>): Option<int> {
    if a.None? then b else if b.None? then a else if a.value < b.value then b else a
  }

  /** A row of metric_rollups. */
  datatype Agg = Agg(samples: nat, cpu: Mean, ram: Mean, disk: Option<real>, load: Mean, rx: Mean, tx: Mean,
                     connections: Option<int>)

  /** COUNT, AVG and MAX over a group of samples. */
  function Aggregate(group: seq<Sample>): Agg {
    if group == [] then
      var none := Mean(0.0, 0);
      Agg(0, none, none, None, none, none, none, None)
    else
      var a, s := Aggregate(group[..|group| - 1]), group[|group| - 1];
      Agg(a.samples + 1, a.cpu.With(s.cpu), a.ram.With(s.ram), MaxReal(a.disk, s.disk), a.load.With(s.load),
          a.rx.With(s.rx), a.tx.With(s.tx), MaxInt(a.connections, s.connections))
  }

  predicate InHour(s: Sample, node: nat, bucket: int) {
    s.node == node && bucket <= s.ts < bucket + HOUR
  }

  /** The samples of one node and hour. */
  function Select(samples: seq<Sample>, node: nat, bucket: int): (r: seq<Sample>)
    ensures r == [] <==> forall i :: 0 <= i < |samples| ==> !InHour(samples[i], node, bucket)
  {
    if samples == [] then []
    else
      var rest, last := Select(samples[..|samples| - 1], node, bucket), samples[|samples| - 1];
      if InHour(last, node, bucket) then rest + [last] else rest
  }

  /** Each sample of the hour as often as it was recorded, and no other. */
  lemma {:induction false} SelectCounts(samples: seq<Sample>, node: nat, bucket: int, s: Sample)
    ensures multiset(Select(samples, node, bucket))[s] == if InHour(s, node, bucket) then multiset(samples)[s] else 0
  {
    if samples != [] {
      var rest, last := samples[..|samples| - 1], samples[|samples| - 1];
      assert samples == rest + [last];
      SelectCounts(rest, node, bucket, s);
    }
  }

  /** The samples that deleting those before the cutoff leaves. */
  function KeepFrom(samples: seq<Sample>, cutoff: int): seq<Sample> {
    if samples == [] then []
    else
      var rest, last := KeepFrom(samples[..|samples| - 1], cutoff), samples[|samples| - 1];
      if last.ts >= cutoff then rest + [last] else rest
  }

  lemma {:induction false} KeepFromKeeps(samples: seq<Sample>, cutoff: int, s: Sample)
    ensures s in KeepFrom(samples, cutoff) <==> s in samples && s.ts >= cutoff
  {
    if samples != [] {
      var rest, last := samples[..|samples| - 1], samples[|samples| - 1];
      assert samples == rest + [last];
      KeepFromKeeps(rest, cutoff, s);
    }
  }

  /** `all` are the samples ever recorded, `horizon` the cutoff of the last deletion: neither is stored. */
  datatype Store = Store(metrics: seq<Sample>, rollups: map<(nat, int), Agg>, all: seq<Sample>, horizon: int,
                         clock: int)

  datatype Retention = Retention(rawDays: nat, rollupDays: nat)

  datatype Event = Heartbeat(sample: Sample) | Cycle(now: int) {
    function Time(): int { match this case Heartbeat(s) => s.ts case Cycle(now) => now }
  }

  function NodesIn(samples: seq<Sample>, bucket: int): set<nat> {
    set i | 0 <= i < |samples| && InHour(samples[i], samples[i].node, bucket) :: samples[i].node
  }

  /** One bucket is aggregated by node; a row that exists already is overwritten. */
  function RollupBucket(metrics: seq<Sample>, rollups: map<(nat, int), Agg>, bucket: int): map<(nat, int), Agg> {
    rollups + map n | n in NodesIn(metrics, bucket) :: (n, bucket) := Aggregate(Select(metrics, n, bucket))
  }

  function PreviousHour(now: int): int { (now / HOUR - 1) * HOUR }

  /** rollup_previous_hour */
  function RollupPrevious(metrics: seq<Sample>, rollups: map<(nat, int), Agg>, now: int): map<(nat, int), Agg> {
    if PreviousHour(now) < 0 then rollups else RollupBucket(metrics, rollups, PreviousHour(now))
  }

  /** The rollup rows that deleting those before the cutoff leaves. */
  function RollupsFrom(rollups: map<(nat, int), Agg>, cutoff: int): map<(nat, int), Agg> {
    map k | k in rollups && k.1 >= cutoff :: rollups[k]
  }

  /** run_maintenance_cycle on the two tables. */
  function AfterCycle(s: Store, now: int, keep: Retention): Store {
    var rolled := RollupPrevious(s.metrics, s.rollups, now);
    var horizon := now - Days(keep.rawDays);
    Store(KeepFrom(s.metrics, horizon), RollupsFrom(rolled, now - Days(keep.rollupDays)), s.all, horizon, now)
  }

  function Step(s: Store, e: Event, keep: Retention): Store {
    match e
    case Heartbeat(sample) => s.(metrics := s.metrics + [sample], all := s.all + [sample], clock := sample.ts)
    case Cycle(now) => AfterCycle(s, now, keep)
  }

  function LastTime(events: seq<Event>, start: int): int {
    if events == [] then start else events[|events| - 1].Time()
  }

  /** The clock never goes back. */
  predicate Monotone(events: seq<Event>, start: int) {
    events == [] ||
    (Monotone(events[..|events| - 1], start) && LastTime(events[..|events| - 1], start) <= events[|events| - 1].Time())
  }

  function Run(s: Store, events: seq<Event>, keep: Retention): Store {
    if events == [] then s else Step(Run(s, events[..|events| - 1], keep), events[|events| - 1], keep)
  }

  function Empty(keep: Retention): Store { Store([], map[], [], -Days(keep.rawDays), 0) }

  // ---- the invariant -----------------------------------------------------------------

  predicate RowExact(all: seq<Sample>, clock: int, key: (nat, int), row: Agg) {
    && key.1 % HOUR == 0 && key.1 + HOUR <= clock
    && Select(all, key.0, key.1) != []
    && row == Aggregate(Select(all, key.0, key.1))
  }

  predicate RowsExact(all: seq<Sample>, clock: int, rollups: map<(nat, int), Agg>) {
    forall key :: key in rollups ==> RowExact(all, clock, key, rollups[key])
  }

  predicate Exact(s: Store, keep: Retention) {
    && s.metrics == KeepFrom(s.all, s.horizon) && s.horizon <= s.clock - Days(keep.rawDays)
    && (forall i :: 0 <= i < |s.all| ==> s.all[i].ts <= s.clock)
    && RowsExact(s.all, s.clock, s.rollups)
  }

  lemma {:induction false} SelectAfterKeep(samples: seq<Sample>, cutoff: int, node: nat, bucket: int)
    requires cutoff <= bucket
    ensures Select(KeepFrom(samples, cutoff), node, bucket) == Select(samples, node, bucket)
  {
    if samples != [] {
      var rest, last := samples[..|samples| - 1], samples[|samples| - 1];
      SelectAfterKeep(rest, cutoff, node, bucket);
      if last.ts >= cutoff {
        assert KeepFrom(samples, cutoff)[..|KeepFrom(samples, cutoff)| - 1] == KeepFrom(rest, cutoff);
      }
    }
  }

  lemma {:induction false} KeepTwice(samples: seq<Sample>, first: int, second: int)
    requires first <= second
    ensures KeepFrom(KeepFrom(samples, first), second) == KeepFrom(samples, second)
  {
    if samples != [] {
      var rest, last := samples[..|samples| - 1], samples[|samples| - 1];
      KeepTwice(rest, first, second);
      if last.ts >= first {
        assert KeepFrom(samples, first)[..|KeepFrom(samples, first)| - 1] == KeepFrom(rest, first);
      }
    }
  }

  lemma HeartbeatKeepsExact(s: Store, sample: Sample, keep: Retention)
    requires Exact(s, keep) && s.clock <= sample.ts && keep.rawDays >= 1
    ensures Exact(Step(s, Heartbeat(sample), keep), keep)
  {
    var s' := Step(s, Heartbeat(sample), keep);
    assert s'.all[..|s'.all| - 1] == s.all;
    forall key | key in s'.rollups ensures RowExact(s'.all, s'.clock, key, s'.rollups[key]) {
      assert RowExact(s.all, s.clock, key, s.rollups[key]);
      assert !InHour(sample, key.0, key.1);
    }
  }

  lemma RolledRow(metrics: seq<Sample>, rollups: map<(nat, int), Agg>, now: int, key: (nat, int))
    requires key in RollupPrevious(metrics, rollups, now)
    ensures var closed, row := PreviousHour(now), RollupPrevious(metrics, rollups, now)[key];
      || (closed >= 0 && key.1 == closed && key.0 in NodesIn(metrics, closed) &&
        row == Aggregate(Select(metrics, key.0, closed)))
      || (key in rollups && row == rollups[key])
  {
  }

  lemma NodesHaveSamples(samples: seq<Sample>, node: nat, bucket: int)
    requires node in NodesIn(samples, bucket)
    ensures Select(samples, node, bucket) != []
  {
  }

  lemma PreviousHourBounds(now: int)
    ensures var b := PreviousHour(now); b % HOUR == 0 && b + HOUR <= now < b + 2 * HOUR
  {
  }

  /** The hour being rolled up has ended, and none of its samples has been deleted yet. */
  lemma RollupKeepsRowsExact(s: Store, now: int, keep: Retention)
    requires Exact(s, keep) && s.clock <= now && keep.rawDays >= 1
    ensures RowsExact(s.all, now, RollupPrevious(s.metrics, s.rollups, now))
  {
    var closed, rolled := PreviousHour(now), RollupPrevious(s.metrics, s.rollups, now);
    PreviousHourBounds(now);
    forall key | key in rolled ensures RowExact(s.all, now, key, rolled[key]) {
      RolledRow(s.metrics, s.rollups, now, key);
      if key in s.rollups && rolled[key] == s.rollups[key] {
        assert RowExact(s.all, s.clock, key, s.rollups[key]);
      } else {
        NodesHaveSamples(s.metrics, key.0, closed);
        SelectAfterKeep(s.all, s.horizon, key.0, closed);
      }
    }
  }

  lemma CycleKeepsExact(s: Store, now: int, keep: Retention)
    requires Exact(s, keep) && s.clock <= now && keep.rawDays >= 1
    ensures Exact(Step(s, Cycle(now), keep), keep)
  {
    KeepTwice(s.all, s.horizon, now - Days(keep.rawDays));
    RollupKeepsRowsExact(s, now, keep);
  }

  /** Over every run: each rollup row equals the aggregate of all samples ever recorded for its node and hour. */
  lemma {:induction false} RollupsStayExact(events: seq<Event>, keep: Retention)
    requires Monotone(events, 0) && keep.rawDays >= 1
    ensures Exact(Run(Empty(keep), events, keep), keep)
    ensures Run(Empty(keep), events, keep).clock == LastTime(events, 0)
  {
    if events != [] {
      var rest, e := events[..|events| - 1], events[|events| - 1];
      RollupsStayExact(rest, keep);
      var before := Run(Empty(keep), rest, keep);
      match e
      case Heartbeat(sample) => HeartbeatKeepsExact(before, sample, keep);
      case Cycle(now) => CycleKeepsExact(before, now, keep);
    }
  }

  // ---- which rows there are -----------------------------------------------------------

  /** The samples of the heartbeats. */
  function Recorded(events: seq<Event>): seq<Sample> {
    if events == [] then []
    else
      var rest, last := Recorded(events[..|events| - 1]), events[|events| - 1];
      if last.Heartbeat? then rest + [last.sample] else rest
  }

  /** Some cycle came in the hour after this one. */
  ghost predicate RolledUp(events: seq<Event>, bucket: int) {
    exists k :: 0 <= k < |events| && events[k].Cycle? && PreviousHour(events[k].now) == bucket
  }

  /** No cycle found the hour beyond the retention of rollups. */
  ghost predicate Retained(events: seq<Event>, bucket: int, keep: Retention) {
    forall k :: 0 <= k < |events| && events[k].Cycle? ==> events[k].now - Days(keep.rollupDays) <= bucket
  }

  ghost predicate Due(events: seq<Event>, key: (nat, int), keep: Retention) {
    && key.1 >= 0 && Select(Recorded(events), key.0, key.1) != []
    && RolledUp(events, key.1) && Retained(events, key.1, keep)
  }

  lemma {:induction false} AllIsRecorded(events: seq<Event>, keep: Retention)
    ensures Run(Empty(keep), events, keep).all == Recorded(events)
  {
    if events != [] { AllIsRecorded(events[..|events| - 1], keep); }
  }

  lemma RolledUpNext(events: seq<Event>, e: Event, bucket: int)
    ensures RolledUp(events + [e], bucket) <==> RolledUp(events, bucket) || (e.Cycle? && PreviousHour(e.now) == bucket)
  {
    var all := events + [e];
    assert all[|events|] == e;
    if RolledUp(events, bucket) {
      var k :| 0 <= k < |events| && events[k].Cycle? && PreviousHour(events[k].now) == bucket;
      assert all[k] == events[k];
    }
  }

  lemma RetainedNext(events: seq<Event>, e: Event, bucket: int, keep: Retention)
    ensures Retained(events + [e], bucket, keep) <==>
      Retained(events, bucket, keep) && (e.Cycle? ==> e.now - Days(keep.rollupDays) <= bucket)
  {
    var all := events + [e];
    assert all[|events|] == e;
    if Retained(all, bucket, keep) {
      forall k | 0 <= k < |events| && events[k].Cycle? ensures events[k].now - Days(keep.rollupDays) <= bucket {
        assert all[k] == events[k];
      }
    }
  }

  /** An hour that was rolled up has ended. */
  lemma RolledUpHasEnded(events: seq<Event>, bucket: int)
    requires Monotone(events, 0) && RolledUp(events, bucket)
    ensures bucket + HOUR <= LastTime(events, 0)
  {
    var k :| 0 <= k < |events| && events[k].Cycle? && PreviousHour(events[k].now) == bucket;
    EarlierTime(events, k);
    PreviousHourBounds(events[k].now);
  }

  lemma {:induction false} EarlierTime(events: seq<Event>, k: nat)
    requires Monotone(events, 0) && k < |events|
    ensures events[k].Time() <= LastTime(events, 0)
  {
    if k < |events| - 1 { EarlierTime(events[..|events| - 1], k); }
  }

  lemma NodesAreSelected(samples: seq<Sample>, node: nat, bucket: int)
    ensures node in NodesIn(samples, bucket) <==> Select(samples, node, bucket) != []
  {
  }

  lemma CycleRows(s: Store, now: int, keep: Retention, key: (nat, int))
    requires Exact(s, keep) && s.clock <= now && keep.rawDays >= 1
    ensures key in Step(s, Cycle(now), keep).rollups <==>
      && (key in s.rollups || (key.1 == PreviousHour(now) >= 0 && Select(s.all, key.0, key.1) != []))
      && now - Days(keep.rollupDays) <= key.1
  {
    NodesAreSelected(s.metrics, key.0, key.1);
    if key.1 == PreviousHour(now) {
      PreviousHourBounds(now);
      SelectAfterKeep(s.all, s.horizon, key.0, key.1);
    }
  }

  lemma DueAfterHeartbeat(events: seq<Event>, sample: Sample, key: (nat, int), keep: Retention)
    requires Monotone(events, 0) && LastTime(events, 0) <= sample.ts
    ensures Due(events + [Heartbeat(sample)], key, keep) <==> Due(events, key, keep)
  {
    var all := events + [Heartbeat(sample)];
    assert all[..|events|] == events && all[|events|] == Heartbeat(sample);
    assert Recorded(all) == Recorded(events) + [sample];
    assert Recorded(all)[..|Recorded(events)|] == Recorded(events);
    RolledUpNext(events, Heartbeat(sample), key.1);
    RetainedNext(events, Heartbeat(sample), key.1, keep);
    if RolledUp(events, key.1) { RolledUpHasEnded(events, key.1); }
    hide RolledUp, Retained, Monotone;
  }

  lemma DueAfterCycle(events: seq<Event>, now: int, key: (nat, int), keep: Retention)
    requires Monotone(events, 0) && LastTime(events, 0) <= now
    ensures Due(events + [Cycle(now)], key, keep) <==>
      && (Due(events, key, keep) ||
          (key.1 == PreviousHour(now) >= 0 && Select(Recorded(events), key.0, key.1) != []))
      && now - Days(keep.rollupDays) <= key.1
  {
    var all := events + [Cycle(now)];
    assert all[..|events|] == events && all[|events|] == Cycle(now);
    assert Recorded(all) == Recorded(events);
    RolledUpNext(events, Cycle(now), key.1);
    RetainedNext(events, Cycle(now), key.1, keep);
    if now - Days(keep.rollupDays) <= key.1 {
      forall k | 0 <= k < |events| && events[k].Cycle? ensures events[k].now - Days(keep.rollupDays) <= key.1 {
        EarlierTime(events, k);
      }
    }
    hide RolledUp, Monotone;
  }

  /** Over every run: a row exists exactly for a node with samples in an hour that a cycle of the following hour
      rolled up and no cycle has dropped. */
  lemma {:induction false} RowsAreThoseDue(events: seq<Event>, keep: Retention, key: (nat, int))
    requires Monotone(events, 0) && keep.rawDays >= 1
    ensures key in Run(Empty(keep), events, keep).rollups <==> Due(events, key, keep)
  {
    if events != [] {
      var rest, e := events[..|events| - 1], events[|events| - 1];
      assert events == rest + [e];
      RowsAreThoseDue(rest, keep, key);
      RollupsStayExact(rest, keep);
      AllIsRecorded(rest, keep);
      match e
      case Heartbeat(sample) => DueAfterHeartbeat(rest, sample, key, keep);
      case Cycle(now) =>
        DueAfterCycle(rest, now, key, keep);
        CycleRows(Run(Empty(keep), rest, keep), now, keep, key);
        hide Due, Recorded, AfterCycle, Exact;
    }
  }

  /** Such a row is the aggregate of the samples that the heartbeats of the run recorded for it. */
  lemma RowsTellTheHour(events: seq<Event>, keep: Retention, key: (nat, int))
    requires Monotone(events, 0) && keep.rawDays >= 1 && key in Run(Empty(keep), events, keep).rollups
    ensures Run(Empty(keep), events, keep).rollups[key] == Aggregate(Select(Recorded(events), key.0, key.1))
  {
    RollupsStayExact(events, keep);
    AllIsRecorded(events, keep);
  }

  // ---- what a row says ---------------------------------------------------------------

  /** The values of a column that are not NULL. */
  function Present<T>(group: seq<Sample>, column: Sample -> Option<T>): seq<T> {
    if group == [] then []
    else
      With(Present(group[..|group| - 1], column), column(group[|group| - 1]))
  }

  function With<T>(values: seq<T>, v: Option<T>): seq<T> { if v.Some? then values + [v.value] else values }

  function Sum(values: seq<real>): real {
    if values == [] then 0.0 else Sum(values[..|values| - 1]) + values[|values| - 1]
  }

  predicate IsMean(m: Mean, values: seq<real>) { m.count == |values| && m.sum == Sum(values) }

  ghost predicate IsMaxReal(m: Option<real>, values: seq<real>) {
    match m
    case None => values == []
    case Some(x) => x in values && forall i :: 0 <= i < |values| ==> values[i] <= x
  }

  ghost predicate IsMaxInt(m: Option<int>, values: seq<int>) {
    match m
    case None => values == []
    case Some(x) => x in values && forall i :: 0 <= i < |values| ==> values[i] <= x
  }

  /** Averages are over the values that are not NULL, maxima are values that none exceeds. */
  lemma {:induction false} AggregateMeans(group: seq<Sample>)
    ensures var a := Aggregate(group);
      && a.samples == |group|
      && IsMean(a.cpu, Present(group, (s: Sample) => s.cpu)) && IsMean(a.ram, Present(group, (s: Sample) => s.ram))
      && IsMean(a.load, Present(group, (s: Sample) => s.load))
      && IsMean(a.rx, Present(group, (s: Sample) => s.rx)) && IsMean(a.tx, Present(group, (s: Sample) => s.tx))
      && IsMaxReal(a.disk, Present(group, (s: Sample) => s.disk))
      && IsMaxInt(a.connections, Present(group, (s: Sample) => s.connections))
  {
    if group != [] {
      var rest, s := group[..|group| - 1], group[|group| - 1];
      AggregateMeans(rest);
      MeanGrows(Aggregate(rest).cpu, Present(rest, (s: Sample) => s.cpu), s.cpu);
      MeanGrows(Aggregate(rest).ram, Present(rest, (s: Sample) => s.ram), s.ram);
      MeanGrows(Aggregate(rest).load, Present(rest, (s: Sample) => s.load), s.load);
      MeanGrows(Aggregate(rest).rx, Present(rest, (s: Sample) => s.rx), s.rx);
      MeanGrows(Aggregate(rest).tx, Present(rest, (s: Sample) => s.tx), s.tx);
      MaxRealGrows(Aggregate(rest).disk, Present(rest, (s: Sample) => s.disk), s.disk);
      MaxIntGrows(Aggregate(rest).connections, Present(rest, (s: Sample) => s.connections), s.connections);
      hide IsMean, IsMaxReal, IsMaxInt, Mean.With, MaxReal, MaxInt;
    }
  }

  lemma MeanGrows(m: Mean, values: seq<real>, v: Option<real>)
    requires IsMean(m, values)
    ensures IsMean(m.With(v), With(values, v))
  {
    assert v.Some? ==> (values + [v.value])[..|values|] == values;
  }

  lemma MaxRealGrows(m: Option<real>, values: seq<real>, v: Option<real>)
    requires IsMaxReal(m, values)
    ensures IsMaxReal(MaxReal(m, v), With(values, v))
  {
  }

  lemma MaxIntGrows(m: Option<int>, values: seq<int>, v: Option<int>)
    requires IsMaxInt(m, values)
    ensures IsMaxInt(MaxInt(m, v), With(values, v))
  {
  }

  /** The two tables as the handlers update them; `all`, `horizon` and `clock` are history. */
  class MetricTables {
    var metrics: seq<Sample>
    var rollups: map<(nat, int), Agg>
    const keep: Retention
    ghost var all: seq<Sample>
    ghost var horizon: int
    ghost var clock: int

    ghost function View(): Store
      reads this
    {
      Store(metrics, rollups, all, horizon, clock)
    }

    constructor (keep: Retention)
      ensures View() == Empty(keep) && this.keep == keep
    {
      this.keep := keep;
      metrics, rollups, all, horizon, clock := [], map[], [], -Days(keep.rawDays), 0;
    }

    /** The INSERT of agent_heartbeat; the handler stamps the sample with its own clock. */
    method RecordHeartbeat(sample: Sample)
      requires Exact(View(), keep) && clock <= sample.ts && keep.rawDays >= 1
      modifies this
      ensures Exact(View(), keep) && View() == Step(old(View()), Heartbeat(sample), keep)
    {
      HeartbeatKeepsExact(View(), sample, keep);
      metrics := metrics + [sample];
      all, clock := all + [sample], sample.ts;
    }

    /** Old samples are deleted. */
    method DeleteMetricsBefore(cutoff: int)
      modifies this`metrics
      ensures metrics == KeepFrom(old(metrics), cutoff)
      ensures forall s :: s in metrics <==> s in old(metrics) && s.ts >= cutoff
    {
      var kept: seq<Sample> := [];
      var i := 0;
      while i < |metrics|
        invariant i <= |metrics| && metrics == old(metrics) && kept == KeepFrom(metrics[..i], cutoff)
      {
        assert metrics[..i + 1][..i] == metrics[..i];
        if metrics[i].ts >= cutoff { kept := kept + [metrics[i]]; }
        i := i + 1;
      }
      assert metrics[..|metrics|] == metrics;
      metrics := kept;
      forall s ensures s in metrics <==> s in old(metrics) && s.ts >= cutoff { KeepFromKeeps(old(metrics), cutoff, s); }
    }

    /** rollup_previous_hour */
    method RollupPreviousHour(now: int)
      modifies this`rollups
      ensures rollups == RollupPrevious(metrics, old(rollups), now)
    {
      var bucket := (now / HOUR - 1) * HOUR;
      if bucket >= 0 {
        rollups := RollupBucket(metrics, rollups, bucket);
      }
    }

    /** Old rollup rows are deleted. */
    method DeleteRollupsBefore(cutoff: int)
      modifies this`rollups
      ensures rollups == RollupsFrom(old(rollups), cutoff)
    {
      rollups := RollupsFrom(rollups, cutoff);
    }

    /** run_maintenance_cycle: roll up first, delete afterwards; CycleKeepsExact shows that the rollups stay exact. */
    method RunCycle(now: int)
      modifies this
      ensures View() == AfterCycle(old(View()), now, keep)
    {
      hide KeepFrom, RollupPrevious, RollupsFrom;
      RollupPreviousHour(now);
      DeleteMetricsBefore(now - Days(keep.rawDays));
      DeleteRollupsBefore(now - Days(keep.rollupDays));
      horizon, clock := now - Days(keep.rawDays), now;
    }
  }
}
