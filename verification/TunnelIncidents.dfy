/** The count that `Heartbeat` keeps with a tunnel's row is the number of its active incidents in the tables of
    `Incidents`, step by step. */
module TunnelIncidents {
  import opened Common
  import H = Heartbeat
  import I = Incidents

  predicate Counts(row: I.Incident, tunnel: nat) { row.tunnel == Some(tunnel) && row.Active() }

  function ActiveCount(rows: seq<I.Incident>, tunnel: nat): nat {
    if rows == [] then 0
    else ActiveCount(rows[..|rows| - 1], tunnel) + if Counts(rows[|rows| - 1], tunnel) then 1 else 0
  }

  /** What the look-up for an active incident of the tunnel may return. */
  predicate LookUp(rows: seq<I.Incident>, tunnel: nat, found: Option<nat>) {
    if found.Some? then found.value < |rows| && Counts(rows[found.value], tunnel) else !I.HasActive(rows, tunnel)
  }

  /** What a report does to the tables. */
  function AfterReport(b: I.Book, tunnel: nat, status: H.Status, streak: nat, found: Option<nat>, now: int): I.Book {
    if status.Bad() && streak >= status.Threshold() && found.None? then I.After(b, I.Detect(Some(tunnel), now))
    else if status.Healthy? && found.Some? then I.After(b, I.Resolve(found.value, now))
    else b
  }

  lemma {:induction false} CountUpdate(rows: seq<I.Incident>, id: nat, row: I.Incident, tunnel: nat)
    requires id < |rows|
    ensures ActiveCount(rows[id := row], tunnel) + (if Counts(rows[id], tunnel) then 1 else 0)
      == ActiveCount(rows, tunnel) + if Counts(row, tunnel) then 1 else 0
  {
    var n := |rows| - 1;
    if id < n {
      assert rows[id := row][..n] == rows[..n][id := row];
      CountUpdate(rows[..n], id, row, tunnel);
    } else {
      assert rows[id := row][..n] == rows[..n];
    }
  }

  lemma {:induction false} CountIsPositive(rows: seq<I.Incident>, tunnel: nat)
    ensures ActiveCount(rows, tunnel) > 0 <==> I.HasActive(rows, tunnel)
  {
    if rows != [] {
      var n := |rows| - 1;
      CountIsPositive(rows[..n], tunnel);
      if I.HasActive(rows[..n], tunnel) {
        var i :| 0 <= i < n && rows[..n][i].tunnel == Some(tunnel) && rows[..n][i].Active();
        assert rows[i].tunnel == Some(tunnel) && rows[i].Active();
      }
      if Counts(rows[n], tunnel) {
        assert I.HasActive(rows, tunnel);
      } else if I.HasActive(rows, tunnel) {
        var i :| 0 <= i < |rows| && rows[i].tunnel == Some(tunnel) && rows[i].Active();
        assert rows[..n][i] == rows[i];
      }
    }
  }

  /** By how much a step of `Incidents` moves a tunnel's count. */
  function Change(rows: seq<I.Incident>, s: I.Step, tunnel: nat): int
    requires s.Detect? || s.Resolve? || s.Reopen?
  {
    match s
    case Detect(t, _) => if t == Some(tunnel) && !I.HasActive(rows, tunnel) then 1 else 0
    case Resolve(id, _) => if id < |rows| && Counts(rows[id], tunnel) then -1 else 0
    case Reopen(id, _) => if id < |rows| && rows[id].tunnel == Some(tunnel) && !rows[id].Active() then 1 else 0
  }

  lemma StepCounts(b: I.Book, s: I.Step, tunnel: nat)
    requires s.Detect? || s.Resolve? || s.Reopen?
    ensures ActiveCount(I.After(b, s).incidents, tunnel) ==
      ActiveCount(b.incidents, tunnel) + Change(b.incidents, s, tunnel)
  {
    CountIsPositive(b.incidents, tunnel);
    match s {
      case Detect(t, now) =>
        assert (b.incidents + [I.Incident(t, I.Open, None)])[..|b.incidents|] == b.incidents;
      case Resolve(id, now) =>
        if id < |b.incidents| {
          CountUpdate(b.incidents, id, b.incidents[id].(status := I.Resolved, resolvedAt := Some(now)), tunnel);
        }
      case Reopen(id, now) =>
        if id < |b.incidents| {
          CountUpdate(b.incidents, id, b.incidents[id].(status := I.Open, resolvedAt := None), tunnel);
        }
    }
  }

  /** A report changes the count as it changes the tables, whichever active incident the look-up returns; other
      tunnels' counts stay. */
  lemma ReportKeepsCount(b: I.Book, tunnel: nat, row: H.Tunnel, status: H.Status, found: Option<nat>, now: int,
                         other: nat)
    requires row.active == ActiveCount(b.incidents, tunnel) && LookUp(b.incidents, tunnel, found) && other != tunnel
    ensures var after := AfterReport(b, tunnel, status, H.Updated(row, status).streak, found, now);
      && H.Updated(row, status).active == ActiveCount(after.incidents, tunnel)
      && ActiveCount(after.incidents, other) == ActiveCount(b.incidents, other)
  {
    CountIsPositive(b.incidents, tunnel);
    if found.Some? { assert I.HasActive(b.incidents, tunnel); }
    var detect := I.Detect(Some(tunnel), now);
    StepCounts(b, detect, tunnel);
    StepCounts(b, detect, other);
    if found.Some? {
      StepCounts(b, I.Resolve(found.value, now), tunnel);
      StepCounts(b, I.Resolve(found.value, now), other);
    }
  }

  /** So does what an operator does by hand. */
  lemma OperatorKeepsCount(b: I.Book, id: nat, key: H.Key, table: H.Table, tunnel: nat, now: int)
    requires id < |b.incidents| && b.incidents[id].tunnel == Some(tunnel)
    requires key in table && table[key].active == ActiveCount(b.incidents, tunnel)
    ensures b.incidents[id].Active() ==>
      H.After(table, H.OperatorResolve(key))[key].active ==
        ActiveCount(I.After(b, I.Resolve(id, now)).incidents, tunnel)
    ensures !b.incidents[id].Active() ==>
      H.After(table, H.OperatorReopen(key))[key].active == ActiveCount(I.After(b, I.Reopen(id, now)).incidents, tunnel)
  {
    CountIsPositive(b.incidents, tunnel);
    StepCounts(b, I.Resolve(id, now), tunnel);
    StepCounts(b, I.Reopen(id, now), tunnel);
    if b.incidents[id].Active() { assert I.HasActive(b.incidents, tunnel); }
  }
}
