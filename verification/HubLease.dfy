/** The controller lease that keeps two Hubs from running maintenance at the same time. */
module HubLease {
  import opened Common

  /** A row of hub_leases. */
  datatype Lease = Lease(holder: string, expires: int)

  /** An attempt to acquire, with the end of the cycle that follows if it succeeds; or the release at shutdown. */
  datatype Event =
    | Acquire(holder: string, now: int, end: int)
    | Release(holder: string, now: int)

  /** The upsert: an expired row is taken over, a live one only renewed by its holder. */
  function Upsert(row: Option<Lease>, holder: string, now: int, seconds: nat): Option<Lease> {
    if row.None? || row.value.holder == holder || row.value.expires < now then Some(Lease(holder, now + seconds))
    else row
  }

  predicate Granted(row: Option<Lease>, holder: string, now: int, seconds: nat) {
    var after := Upsert(row, holder, now, seconds);
    after.Some? && after.value.holder == holder && after.value.expires >= now + seconds
  }

  function After(row: Option<Lease>, e: Event, seconds: nat): Option<Lease> {
    match e
    case Acquire(holder, now, _) => Upsert(row, holder, now, seconds)
    case Release(holder, _) => if row.Some? && row.value.holder == holder then None else row
  }

  /** The row before the n-th event. */
  function Row(events: seq<Event>, n: nat, seconds: nat): Option<Lease>
    requires n <= |events|
  {
    if n == 0 then None else After(Row(events, n - 1, seconds), events[n - 1], seconds)
  }

  /** The Hubs share a clock that never goes back. */
  predicate InOrder(events: seq<Event>) {
    forall i, j :: 0 <= i < j < |events| ==> events[i].now <= events[j].now
  }

  predicate GrantedAt(events: seq<Event>, i: nat, seconds: nat) {
    i < |events| && events[i].Acquire? && Granted(Row(events, i, seconds), events[i].holder, events[i].now, seconds)
  }

  predicate Releases(e: Event, holder: string) { e.Release? && e.holder == holder }

  predicate ReleasedBetween(events: seq<Event>, holder: string, i: nat, j: nat)
    requires j <= |events|
  {
    exists k :: i < k < j && Releases(events[k], holder)
  }

  /** After a grant the row keeps its holder until the lease has run out or been released. */
  lemma {:induction false} GrantLasts(events: seq<Event>, i: nat, j: nat, seconds: nat)
    requires InOrder(events) && GrantedAt(events, i, seconds) && i < j <= |events|
    requires !ReleasedBetween(events, events[i].holder, i, j)
    ensures var row, expiry := Row(events, j, seconds), events[i].now + seconds;
      (row.Some? && row.value.holder == events[i].holder && row.value.expires >= expiry) || events[j - 1].now > expiry
  {
    if i < j - 1 {
      assert !ReleasedBetween(events, events[i].holder, i, j - 1);
      GrantLasts(events, i, j - 1, seconds);
      assert events[j - 2].now <= events[j - 1].now;
    }
  }

  /** Another Hub acquires the lease only strictly after the holder's last expiry, or after its release. */
  lemma TakeoverOnlyAfterExpiry(events: seq<Event>, i: nat, j: nat, seconds: nat)
    requires InOrder(events) && GrantedAt(events, i, seconds) && GrantedAt(events, j, seconds)
    requires i < j && events[i].holder != events[j].holder
    ensures events[j].now > events[i].now + seconds || ReleasedBetween(events, events[i].holder, i, j)
  {
    if !ReleasedBetween(events, events[i].holder, i, j) {
      GrantLasts(events, i, j, seconds);
      assert events[j - 1].now <= events[j].now;
    }
  }

  /** The row after a grant, if there is no other until then. */
  lemma {:induction false} RowSinceGrant(events: seq<Event>, k: nat, i: nat, seconds: nat)
    requires GrantedAt(events, k, seconds) && k < i <= |events|
    requires forall m :: k < m < i ==> !GrantedAt(events, m, seconds)
    ensures Row(events, i, seconds) ==
      if ReleasedBetween(events, events[k].holder, k, i) then None
      else Some(Lease(events[k].holder, events[k].now + seconds))
  {
    if i > k + 1 {
      RowSinceGrant(events, k, i - 1, seconds);
      assert ReleasedBetween(events, events[k].holder, k, i) <==>
        ReleasedBetween(events, events[k].holder, k, i - 1) || Releases(events[i - 1], events[k].holder);
      assert !GrantedAt(events, i - 1, seconds);
    } else {
      assert !ReleasedBetween(events, events[k].holder, k, i);
    }
  }

  lemma {:induction false} NoRowBeforeGrant(events: seq<Event>, i: nat, seconds: nat)
    requires i <= |events| && forall m :: 0 <= m < i ==> !GrantedAt(events, m, seconds)
    ensures Row(events, i, seconds) == None
  {
    if i > 0 {
      NoRowBeforeGrant(events, i - 1, seconds);
      assert !GrantedAt(events, i - 1, seconds);
    }
  }

  /** Over every run: the lease is granted if and only if the last grant was to the same Hub, has been released by its
      holder, or has run out before this second; the first request is always granted. */
  lemma GrantedExactlyWhenFree(events: seq<Event>, i: nat, seconds: nat)
    requires i < |events| && events[i].Acquire?
    ensures (forall m :: 0 <= m < i ==> !GrantedAt(events, m, seconds)) ==> GrantedAt(events, i, seconds)
    ensures forall k ::
      0 <= k < i && GrantedAt(events, k, seconds) && (forall m :: k < m < i ==> !GrantedAt(events, m, seconds)) ==>
        (GrantedAt(events, i, seconds) <==>
          || events[k].holder == events[i].holder
          || ReleasedBetween(events, events[k].holder, k, i)
          || events[k].now + seconds < events[i].now)
  {
    if forall m :: 0 <= m < i ==> !GrantedAt(events, m, seconds) { NoRowBeforeGrant(events, i, seconds); }
    forall k | 0 <= k < i && GrantedAt(events, k, seconds) && forall m :: k < m < i ==> !GrantedAt(events, m, seconds)
      ensures GrantedAt(events, i, seconds) <==>
        || events[k].holder == events[i].holder
        || ReleasedBetween(events, events[k].holder, k, i)
        || events[k].now + seconds < events[i].now
    {
      NextGrant(events, k, i, seconds);
    }
    hide GrantedAt, ReleasedBetween;
  }

  lemma NextGrant(events: seq<Event>, k: nat, i: nat, seconds: nat)
    requires k < i < |events| && events[i].Acquire? && GrantedAt(events, k, seconds)
    requires forall m :: k < m < i ==> !GrantedAt(events, m, seconds)
    ensures GrantedAt(events, i, seconds) <==>
      || events[k].holder == events[i].holder
      || ReleasedBetween(events, events[k].holder, k, i)
      || events[k].now + seconds < events[i].now
  {
    RowSinceGrant(events, k, i, seconds);
    hide ReleasedBetween, Row;
  }

  /** A cycle ends within its lease, and a Hub shuts down after its cycles. */
  predicate CyclesFit(events: seq<Event>, seconds: nat) {
    && (forall i :: 0 <= i < |events| && GrantedAt(events, i, seconds) ==>
      events[i].now <= events[i].end <= events[i].now + seconds)
    && (forall i, k :: 0 <= i < k < |events| && GrantedAt(events, i, seconds) && Releases(events[k], events[i].holder)
          ==> events[i].end <= events[k].now)
  }

  /** Cycles of different Hubs never overlap. */
  lemma CyclesAreExclusive(events: seq<Event>, i: nat, j: nat, seconds: nat)
    requires InOrder(events) && CyclesFit(events, seconds)
    requires GrantedAt(events, i, seconds) && GrantedAt(events, j, seconds) && events[i].holder != events[j].holder
    ensures events[i].end <= events[j].now || events[j].end <= events[i].now
  {
    var a, b := if i < j then i else j, if i < j then j else i;
    TakeoverOnlyAfterExpiry(events, a, b, seconds);
  }

  /** A cycle that outlasts its lease can overlap with another Hub's, so the bound is needed. */
  lemma LongCycleOverlaps(seconds: nat, late: nat)
    ensures var events := [Acquire("a", 0, seconds + 2 + late), Acquire("b", seconds + 1, seconds + 2 + late)];
      && InOrder(events) && GrantedAt(events, 0, seconds) && GrantedAt(events, 1, seconds)
      && events[1].now < events[0].end && events[0].now < events[1].end
  {
    var events := [Acquire("a", 0, seconds + 2 + late), Acquire("b", seconds + 1, seconds + 2 + late)];
    assert Row(events, 1, seconds) == Some(Lease("a", seconds));
  }

  /** A holder that comes back before its expiry keeps the lease; a row whose expiry is this very second is still
      another Hub's. */
  lemma GrantExactly(row: Option<Lease>, holder: string, now: int, seconds: nat)
    ensures Granted(row, holder, now, seconds) <==> row.None? || row.value.holder == holder || row.value.expires < now
  {
  }

  /** The lease row as the Hubs update it; each statement holds the database lock. */
  class LeaseTable {
    var row: Option<Lease>
    const seconds: nat

    constructor (seconds: nat)
      ensures row == None && this.seconds == seconds
    {
      row, this.seconds := None, seconds;
    }

    /** acquire_hub_lease */
    method AcquireHubLease(holder: string, now: int) returns (granted: bool)
      modifies this
      ensures row == Upsert(old(row), holder, now, seconds)
      ensures granted == Granted(old(row), holder, now, seconds)
      ensures granted <==> old(row).None? || old(row).value.holder == holder || old(row).value.expires < now
    {
      GrantExactly(row, holder, now, seconds);
      var expiry := now + seconds;
      if row.None? {
        row := Some(Lease(holder, expiry));
      } else if row.value.holder == holder || row.value.expires < now {
        row := Some(row.value.(holder := holder, expires := expiry));
      }
      granted := row.Some? && row.value.holder == holder && row.value.expires >= expiry;
    }

    /** The DELETE at shutdown. */
    method ReleaseLeases(holder: string)
      modifies this
      ensures forall now :: row == After(old(row), Release(holder, now), seconds)
    {
      if row.Some? && row.value.holder == holder { row := None; }
    }
  }
}
