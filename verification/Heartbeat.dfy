/** Tunnel reports in heartbeats: failure streaks, incidents and the rows of the inventory. */
module Heartbeat {

  datatype Status = Healthy | Down | Degraded | OtherStatus {
    predicate Bad() { Down? || Degraded? }

    /** The streak at which this status opens an incident. */
    function Threshold(): nat { if Down? then 2 else 3 }
  }

  datatype Report = Report(name: string, status: Status, managed: bool) {
    /** The name as it is stored: its first 128 characters. */
    function Name(): string { if |name| > 128 then name[..128] else name }
  }

  /** A row of tunnels, with the number of its active incidents. */
  datatype Tunnel = Tunnel(streak: nat, active: nat)

  type Key = (nat, string)
  type Table = map<Key, Tunnel>

  datatype Event =
    | Beat(node: nat, reports: seq<Report>, recent: bool)
    | OperatorResolve(key: Key)
    | OperatorReopen(key: Key)

  function RowOf(table: Table, key: Key): Tunnel { if key in table then table[key] else Tunnel(0, 0) }

  function Updated(row: Tunnel, status: Status): Tunnel {
    var streak := if status.Bad() then row.streak + 1 else 0;
    Tunnel(streak,
           if status.Bad() && streak >= status.Threshold() && row.active == 0 then 1
           else if status.Healthy? && row.active > 0 then row.active - 1
           else row.active)
  }

  function AfterReport(table: Table, node: nat, r: Report): Table {
    if !r.managed then table else table[(node, r.Name()) := Updated(RowOf(table, (node, r.Name())), r.status)]
  }

  function AfterReports(table: Table, node: nat, reports: seq<Report>): Table {
    if reports == [] then table
    else AfterReport(AfterReports(table, node, reports[..|reports| - 1]), node, reports[|reports| - 1])
  }

  /** The managed names of a heartbeat. */
  predicate Reported(reports: seq<Report>, name: string) {
    exists i :: 0 <= i < |reports| && reports[i].managed && reports[i].Name() == name
  }

  function WithoutStale(table: Table, node: nat, reports: seq<Report>): Table {
    map k | k in table && (k.0 != node || Reported(reports, k.1)) :: table[k]
  }

  function AfterBeat(table: Table, node: nat, reports: seq<Report>, recent: bool): Table {
    var reported := AfterReports(table, node, reports);
    if recent then WithoutStale(reported, node, reports) else reported
  }

  function After(table: Table, e: Event): Table {
    match e
    case Beat(node, reports, recent) => AfterBeat(table, node, reports, recent)
    case OperatorResolve(key) =>
      if key in table && table[key].active > 0 then table[key := table[key].(active := table[key].active - 1)]
      else table
    case OperatorReopen(key) =>
      if key in table then table[key := table[key].(active := table[key].active + 1)] else table
  }

  function Run(events: seq<Event>): Table {
    if events == [] then map[] else After(Run(events[..|events| - 1]), events[|events| - 1])
  }

  /** Names are cut to 128 characters, so reports that agree on these are of one row. */
  lemma {:induction false} NamesAreCut(table: Table, node: nat, reports: seq<Report>)
    requires forall k: Key :: k in table ==> |k.1| <= 128
    ensures forall k: Key :: k in AfterReports(table, node, reports) ==> |k.1| <= 128
  {
    if reports != [] { NamesAreCut(table, node, reports[..|reports| - 1]); }
  }

  // ---- report history ----------------------------------------------------------------

  /** The statuses reported for a name, in order. */
  function Statuses(reports: seq<Report>, name: string): seq<Status> {
    if reports == [] then []
    else
      var rest, r := Statuses(reports[..|reports| - 1], name), reports[|reports| - 1];
      if r.managed && r.Name() == name then rest + [r.status] else rest
  }

  /** What has been reported for a tunnel since its row was created. */
  function History(events: seq<Event>, key: Key): seq<Status> {
    if events == [] then []
    else
      var rest, e := History(events[..|events| - 1], key), events[|events| - 1];
      if !e.Beat? || e.node != key.0 then rest
      else if e.recent && !Reported(e.reports, key.1) then []
      else rest + Statuses(e.reports, key.1)
  }

  /** The length of the trailing run of down and degraded reports. */
  function TrailingBad(h: seq<Status>): nat {
    if h == [] || !h[|h| - 1].Bad() then 0 else 1 + TrailingBad(h[..|h| - 1])
  }

  /** The i-th report ends a run of two when it is down, of three when it is degraded. */
  predicate Qualifies(h: seq<Status>, i: nat) {
    i < |h| && LongEnough(h[i], TrailingBad(h[..i + 1]))
  }

  predicate LongEnough(s: Status, run: nat) { (s.Down? && run >= 2) || (s.Degraded? && run >= 3) }

  /** Some report qualified and none since was healthy. */
  predicate Alarming(h: seq<Status>) {
    exists i :: 0 <= i < |h| && Qualifies(h, i) && NoneHealthy(h, i + 1)
  }

  predicate NoneHealthy(h: seq<Status>, from: nat) { forall k :: from <= k < |h| ==> !h[k].Healthy? }

  lemma TrailingBadNext(h: seq<Status>, s: Status)
    ensures TrailingBad(h + [s]) == if s.Bad() then TrailingBad(h) + 1 else 0
  {
    assert (h + [s])[..|h|] == h;
  }

  lemma QualifiesNext(h: seq<Status>, s: Status, i: nat)
    requires i <= |h|
    ensures Qualifies(h + [s], i) <==> if i < |h| then Qualifies(h, i) else LongEnough(s, TrailingBad(h + [s]))
  {
    assert if i < |h| then (h + [s])[..i + 1] == h[..i + 1] else (h + [s])[..i + 1] == h + [s];
  }

  lemma NoneHealthyNext(h: seq<Status>, s: Status, from: nat)
    requires from <= |h|
    ensures NoneHealthy(h + [s], from) <==> NoneHealthy(h, from) && !s.Healthy?
  {
    var longer := h + [s];
    assert longer[|h|] == s && forall k :: 0 <= k < |h| ==> longer[k] == h[k];
  }

  lemma AlarmGoesOn(h: seq<Status>, s: Status)
    requires LongEnough(s, TrailingBad(h + [s])) || (!s.Healthy? && Alarming(h))
    ensures Alarming(h + [s])
  {
    var i := |h|;
    if !LongEnough(s, TrailingBad(h + [s])) {
      i :| 0 <= i < |h| && Qualifies(h, i) && NoneHealthy(h, i + 1);
      NoneHealthyNext(h, s, i + 1);
    }
    QualifiesNext(h, s, i);
    hide Qualifies, TrailingBad, LongEnough;
  }

  lemma AlarmWasThere(h: seq<Status>, s: Status)
    requires Alarming(h + [s]) && !LongEnough(s, TrailingBad(h + [s]))
    ensures !s.Healthy? && Alarming(h)
  {
    hide Qualifies, TrailingBad, LongEnough, NoneHealthy;
    var i :| 0 <= i < |h + [s]| && Qualifies(h + [s], i) && NoneHealthy(h + [s], i + 1);
    QualifiesNext(h, s, i);
    NoneHealthyNext(h, s, i + 1);
  }

  lemma AlarmingNext(h: seq<Status>, s: Status)
    ensures TrailingBad(h + [s]) == if s.Bad() then TrailingBad(h) + 1 else 0
    ensures Alarming(h + [s]) <==>
      LongEnough(s, TrailingBad(h + [s])) || (!s.Healthy? && Alarming(h))
  {
    TrailingBadNext(h, s);
    hide Alarming, TrailingBad, LongEnough;
    if Alarming(h + [s]) {
      if !LongEnough(s, TrailingBad(h + [s])) { AlarmWasThere(h, s); }
    } else if LongEnough(s, TrailingBad(h + [s])) || (!s.Healthy? && Alarming(h)) {
      AlarmGoesOn(h, s);
    }
  }

  // ---- rows match the history --------------------------------------------------------

  /** The row says what the history says; `operator` allows for incidents changed by hand. */
  predicate Matches(row: Tunnel, h: seq<Status>, operator: bool) {
    row.streak == TrailingBad(h) && (!operator ==> row.active == if Alarming(h) then 1 else 0)
  }

  lemma UpdatedMatches(row: Tunnel, h: seq<Status>, s: Status, operator: bool)
    requires Matches(row, h, operator)
    ensures Matches(Updated(row, s), h + [s], operator)
  {
    AlarmingNext(h, s);
  }

  lemma {:induction false} ReportsMatch(table: Table, node: nat, reports: seq<Report>, key: Key, h: seq<Status>,
                                        operator: bool)
    requires Matches(RowOf(table, key), h, operator) && (key in table <==> h != [])
    ensures var after := AfterReports(table, node, reports);
      var h' := if node == key.0 then h + Statuses(reports, key.1) else h;
      Matches(RowOf(after, key), h', operator) && (key in after <==> h' != [])
  {
    if reports == [] {
      assert h + Statuses(reports, key.1) == h;
    } else {
      var rest, r := reports[..|reports| - 1], reports[|reports| - 1];
      ReportsMatch(table, node, rest, key, h, operator);
      if node == key.0 && r.managed && r.Name() == key.1 {
        var before := AfterReports(table, node, rest);
        assert h + Statuses(reports, key.1) == (h + Statuses(rest, key.1)) + [r.status];
        UpdatedMatches(RowOf(before, key), h + Statuses(rest, key.1), r.status, operator);
      }
    }
  }

  lemma {:induction false} StatusesNotEmpty(reports: seq<Report>, name: string)
    ensures Statuses(reports, name) != [] <==> Reported(reports, name)
  {
    if reports != [] {
      var rest, n := reports[..|reports| - 1], |reports| - 1;
      StatusesNotEmpty(rest, name);
      assert forall i :: 0 <= i < n ==> rest[i] == reports[i];
    }
  }

  predicate UntouchedByOperator(events: seq<Event>, key: Key) {
    forall i :: 0 <= i < |events| && !events[i].Beat? ==> events[i].key != key
  }

  /** Over every run: a row exists exactly while its tunnel has been reported since it was created, its streak is the
      length of the trailing run of down and degraded reports, and, unless an operator stepped in, it has an active
      incident exactly when some report qualified and none since was healthy, and never two. */
  lemma {:induction false} RowsMatchHistory(events: seq<Event>, key: Key)
    ensures var h := History(events, key);
      && (key in Run(events) <==> h != [])
      && Matches(RowOf(Run(events), key), h, !UntouchedByOperator(events, key))
  {
    if events != [] {
      var rest, e := events[..|events| - 1], events[|events| - 1];
      RowsMatchHistory(rest, key);
      assert UntouchedByOperator(events, key) ==> UntouchedByOperator(rest, key);
      var h, operator := History(rest, key), !UntouchedByOperator(events, key);
      if e.Beat? {
        ReportsMatch(Run(rest), e.node, e.reports, key, h, operator);
        StatusesNotEmpty(e.reports, key.1);
      } else {
        assert events[|events| - 1].key == key ==> operator;
      }
    }
  }

  /** A report opens an incident exactly when the tunnel has none and the run it ends is long enough: two for down,
      three for degraded. */
  lemma IncidentOpensExactly(events: seq<Event>, node: nat, r: Report)
    requires r.managed
    ensures var key := (node, r.Name());
      var before, after := RowOf(Run(events), key), AfterReport(Run(events), node, r)[key];
      after.active > before.active <==>
        before.active == 0 && LongEnough(r.status, TrailingBad(History(events, key) + [r.status]))
  {
    var key := (node, r.Name());
    RowsMatchHistory(events, key);
    AlarmingNext(History(events, key), r.status);
  }

  ghost predicate OneActive(table: Table) { forall k :: k in table ==> table[k].active <= 1 }

  lemma {:induction false} ReportsKeepOneActive(table: Table, node: nat, reports: seq<Report>)
    requires OneActive(table)
    ensures OneActive(AfterReports(table, node, reports))
  {
    if reports != [] { ReportsKeepOneActive(table, node, reports[..|reports| - 1]); }
  }

  /** Without an operator reopening one, no tunnel ever has two active incidents. */
  lemma {:induction false} OneActivePerTunnel(events: seq<Event>)
    requires forall i :: 0 <= i < |events| ==> !events[i].OperatorReopen?
    ensures OneActive(Run(events))
  {
    if events != [] {
      var rest, e := events[..|events| - 1], events[|events| - 1];
      OneActivePerTunnel(rest);
      if e.Beat? { ReportsKeepOneActive(Run(rest), e.node, e.reports); }
    }
  }

  // ---- the inventory -----------------------------------------------------------------

  lemma {:induction false} ReportsAddNames(table: Table, node: nat, reports: seq<Report>, key: Key)
    ensures key in AfterReports(table, node, reports) <==> key in table || (key.0 == node && Reported(reports, key.1))
    ensures key.0 != node && key in table ==> AfterReports(table, node, reports)[key] == table[key]
  {
    if reports != [] {
      var rest, n := reports[..|reports| - 1], |reports| - 1;
      ReportsAddNames(table, node, rest, key);
      assert forall i :: 0 <= i < n ==> rest[i] == reports[i];
      assert Reported(reports, key.1) <==> Reported(rest, key.1) || (reports[n].managed && reports[n].Name() == key.1);
    }
  }

  /** After a fresh heartbeat the node's rows are exactly the managed names reported; any other heartbeat only adds or
      updates; either leaves every other node's rows as they are. */
  lemma InventoryAfterBeat(table: Table, node: nat, reports: seq<Report>, recent: bool)
    ensures var after := AfterBeat(table, node, reports, recent);
      && (recent ==> forall name :: (node, name) in after <==> Reported(reports, name))
      && (!recent ==> forall k :: k in table ==> k in after)
      && (forall k: Key :: k.0 != node ==> (k in after <==> k in table) && (k in table ==> after[k] == table[k]))
  {
    var after := AfterBeat(table, node, reports, recent);
    forall k: Key ensures k in AfterReports(table, node, reports) <==>
      k in table || (k.0 == node && Reported(reports, k.1)) {
      ReportsAddNames(table, node, reports, k);
    }
    forall k: Key | k.0 != node && k in table ensures after[k] == table[k] {
      ReportsAddNames(table, node, reports, k);
    }
  }

  class TunnelTable {
    var rows: Table

    constructor ()
      ensures rows == map[]
    {
      rows := map[];
    }

    /** One turn of the loop over report.tunnels. */
    method StoreReport(node: nat, r: Report)
      modifies this
      ensures rows == AfterReport(old(rows), node, r)
    {
      if !r.managed { return; }
      var key := (node, r.Name());
      var existed := key in rows;
      if !existed { rows := rows[key := Tunnel(0, 0)]; }
      var bad := r.status.Down? || r.status.Degraded?;
      var streak := if existed && bad then rows[key].streak + 1 else if bad then 1 else 0;
      rows := rows[key := rows[key].(streak := streak)];
      var threshold := if r.status.Down? then 2 else 3;
      if bad && streak >= threshold && rows[key].active == 0 {
        rows := rows[key := rows[key].(active := 1)];
      } else if r.status.Healthy? && rows[key].active > 0 {
        rows := rows[key := rows[key].(active := rows[key].active - 1)];
      }
    }

    /** The tunnels of agent_heartbeat. */
    method StoreHeartbeat(node: nat, reports: seq<Report>, recent: bool)
      modifies this
      ensures rows == AfterBeat(old(rows), node, reports, recent)
    {
      for i := 0 to |reports|
        invariant rows == AfterReports(old(rows), node, reports[..i])
      {
        assert reports[..i + 1][..i] == reports[..i];
        StoreReport(node, reports[i]);
      }
      assert reports[..|reports|] == reports;
      if recent { rows := WithoutStale(rows, node, reports); }
    }
  }
}
