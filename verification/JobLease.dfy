/** A job that keeps its lease has one owner; a job is requeued exactly when its lease lapsed. */
module JobLease {
  import opened Common
  import opened JobQueue
  import opened HubState
  import opened Saga
  import opened ExactlyOnce

  /** This transaction hands job `j` to an Agent. */
  predicate Takes(h: Hub, e: Event, j: nat) {
    e.ClaimEvent? && FirstQueued(h.jobs, e.node) == Some(j)
  }

  /** This transaction starts or extends the lease of job `j`, at this time. */
  function RefreshTime(h: Hub, e: Event, j: nat): Option<int> {
    if Takes(h, e, j) then Some(e.now)
    else if e.RenewEvent? && e.job == j && Renewable(h.jobs, j, e.node) then Some(e.now)
    else None
  }

  function LastRefresh(h: Hub, events: seq<Event>, j: nat): Option<int>
    requires SagaInv(h)
  {
    if events == [] then None
    else
      var rest := events[..|events| - 1];
      var at := RefreshTime(Run(h, rest), events[|events| - 1], j);
      if at.Some? then at else LastRefresh(h, rest, j)
  }

  predicate IsRunning(h: Hub, j: nat) { j < |h.jobs| && h.jobs[j].status == Running }

  predicate IsQueued(h: Hub, j: nat) { j < |h.jobs| && h.jobs[j].status == Queued }

  /** This transaction puts running job `j` back into the queue. */
  predicate Loses(h: Hub, e: Event, j: nat) {
    e.CycleEvent? && IsRunning(h, j) && Expired(h.jobs[j], e.now)
  }

  function Claims(h: Hub, events: seq<Event>, j: nat): nat
    requires SagaInv(h)
  {
    if events == [] then 0
    else
      var rest := events[..|events| - 1];
      Claims(h, rest, j) + if Takes(Run(h, rest), events[|events| - 1], j) then 1 else 0
  }

  function Requeues(h: Hub, events: seq<Event>, j: nat): nat
    requires SagaInv(h)
  {
    if events == [] then 0
    else
      var rest := events[..|events| - 1];
      Requeues(h, rest, j) + if Loses(Run(h, rest), events[|events| - 1], j) then 1 else 0
  }

  /** Every maintenance cycle that finds the job running comes within 300 seconds of its last refresh. */
  predicate LeaseKept(h: Hub, events: seq<Event>, j: nat)
    requires SagaInv(h)
  {
    if events == [] then true
    else
      var rest, e := events[..|events| - 1], events[|events| - 1];
      && LeaseKept(h, rest, j)
      && (e.CycleEvent? && IsRunning(Run(h, rest), j) ==>
            LastRefresh(h, rest, j).Some? && e.now - LastRefresh(h, rest, j).value <= LEASE_SECONDS)
  }

  lemma RunStep(h: Hub, events: seq<Event>) returns (before: Hub, e: Event)
    requires SagaInv(h) && events != []
    ensures before == Run(h, events[..|events| - 1]) && e == events[|events| - 1]
    ensures SagaInv(before) && forall d :: 0 <= d < |before.deps| ==> Linked(before, d)
    ensures Run(h, events) == Step(before, e).hub
  {
    before, e := Run(h, events[..|events| - 1]), events[|events| - 1];
    LinksResolve(before);
  }

  /** How one transaction moves job `j` through the queue. */
  predicate Moves(h: Hub, e: Event, jobs': seq<Job>, j: nat) {
    && |h.jobs| <= |jobs'|
    && (if |h.jobs| <= j then j < |jobs'| ==> jobs'[j].status == Queued
        else match h.jobs[j].status
          case Queued =>
            if Takes(h, e, j) then jobs'[j].status == Running && jobs'[j].startedAt == Some(e.now)
            else jobs'[j] == h.jobs[j]
          case Running =>
            if Loses(h, e, j) then jobs'[j].status == Queued
            else if Finishes(h, e, j) then jobs'[j].status.Terminal()
            else
              && jobs'[j].status == Running
              && jobs'[j].startedAt ==
                (if RefreshTime(h, e, j).Some? then RefreshTime(h, e, j) else h.jobs[j].startedAt)
          case _ => jobs'[j] == h.jobs[j])
  }

  lemma DeliveryMovesJob(h: Hub, e: Event, j: nat)
    requires SagaInv(h) && e.DeliverEvent?
    requires forall d :: 0 <= d < |h.deps| ==> Linked(h, d)
    ensures Moves(h, e, Step(h, e).hub.jobs, j)
  {
    if Step(h, e).reply == Accepted { var _, _ := DeliveryStages(h, e); } else { RefusedHasNoEffect(h, e); }
  }

  lemma StepMovesJob(h: Hub, e: Event, j: nat)
    requires SagaInv(h)
    requires forall d :: 0 <= d < |h.deps| ==> Linked(h, d)
    ensures Moves(h, e, Step(h, e).hub.jobs, j)
  {
    if e.DeliverEvent? {
      DeliveryMovesJob(h, e, j);
    } else if !e.ClaimEvent? && !e.RenewEvent? && !e.CycleEvent? {
      OtherStepsAppend(h, e);
    }
  }

  /** The start time of a running job is the time of its last claim or renewal. */
  lemma {:induction false} StartIsLastRefresh(h: Hub, events: seq<Event>, j: nat)
    requires SagaInv(h) && |h.jobs| <= j
    ensures IsRunning(Run(h, events), j) ==> Run(h, events).jobs[j].startedAt == LastRefresh(h, events, j)
  {
    if events != [] {
      var before, e := RunStep(h, events);
      StartIsLastRefresh(h, events[..|events| - 1], j);
      StepMovesJob(before, e, j);
    }
  }

  /** Each claim is accounted for: by the current claim, or by a later requeue. */
  lemma {:induction false} ClaimsMatchRequeues(h: Hub, events: seq<Event>, j: nat)
    requires SagaInv(h) && |h.jobs| <= j
    ensures var now := Run(h, events);
      Claims(h, events, j) == Requeues(h, events, j) + (if j < |now.jobs| && !IsQueued(now, j) then 1 else 0)
  {
    if events != [] {
      var before, e := RunStep(h, events);
      ClaimsMatchRequeues(h, events[..|events| - 1], j);
      StepMovesJob(before, e, j);
    }
  }

  /** A job is never requeued exactly when every cycle finds its lease kept. */
  lemma {:induction false} RequeuedExactlyWhenLeaseLapses(h: Hub, events: seq<Event>, j: nat)
    requires SagaInv(h) && |h.jobs| <= j
    ensures Requeues(h, events, j) == 0 <==> LeaseKept(h, events, j)
  {
    if events != [] {
      var before, e := RunStep(h, events);
      RequeuedExactlyWhenLeaseLapses(h, events[..|events| - 1], j);
      StartIsLastRefresh(h, events[..|events| - 1], j);
      if IsRunning(before, j) { RunningHasStart(h, events[..|events| - 1], j); }
    }
  }

  lemma {:induction false} RunningHasStart(h: Hub, events: seq<Event>, j: nat)
    requires SagaInv(h) && |h.jobs| <= j && IsRunning(Run(h, events), j)
    ensures Run(h, events).jobs[j].startedAt.Some?
  {
    if events != [] {
      var before, e := RunStep(h, events);
      if IsRunning(before, j) { RunningHasStart(h, events[..|events| - 1], j); }
      StepMovesJob(before, e, j);
    }
  }

  /** A job whose lease is kept is claimed at most once in the whole run. */
  lemma KeptLeaseMeansOneOwner(h: Hub, events: seq<Event>, j: nat)
    requires SagaInv(h) && |h.jobs| <= j && LeaseKept(h, events, j)
    ensures Claims(h, events, j) <= 1
  {
    RequeuedExactlyWhenLeaseLapses(h, events, j);
    ClaimsMatchRequeues(h, events, j);
  }

  /** A job waits in the queue of this node. */
  predicate WaitsFor(job: Job, node: nat) { job.node == node && job.status.Queued? }

  /** A claim starts the oldest job that waits for the node, and leaves every other. */
  lemma ClaimStartsTheOldest(h: Hub, node: nat, now: int, j: nat)
    requires j < |h.jobs| && forall d :: 0 <= d < |h.deps| ==> Linked(h, d)
    ensures Step(h, ClaimEvent(node, now)).hub.jobs[j] ==
      if WaitsFor(h.jobs[j], node) && forall k :: 0 <= k < j ==> !WaitsFor(h.jobs[k], node) then
        h.jobs[j].(status := Running, startedAt := Some(now))
      else h.jobs[j]
  {
    var first := FirstQueued(h.jobs, node);
    assert forall k :: 0 <= k < |h.jobs| ==> (Claimable(h.jobs[k], node) <==> WaitsFor(h.jobs[k], node));
  }

  /** A renewal is accepted exactly from the node that runs the job, and restarts its lease. */
  lemma RenewalIsAnswered(h: Hub, job: nat, node: nat, now: int)
    requires forall d :: 0 <= d < |h.deps| ==> Linked(h, d)
    ensures var next, mine := Step(h, RenewEvent(job, node, now)), IsRunning(h, job) && h.jobs[job].node == node;
      && next.reply == (if mine then Accepted else Conflict)
      && next.hub == if mine then h.(jobs := h.jobs[job := h.jobs[job].(startedAt := Some(now))]) else h
  {
  }

  // ---- an Agent that renews ------------------------------------------------------------

  /** The time on the transaction; only claims, renewals and cycles look at the clock. */
  function Clock(e: Event): Option<int> {
    match e
    case ClaimEvent(_, now) => Some(now)
    case RenewEvent(_, _, now) => Some(now)
    case CycleEvent(now) => Some(now)
    case _ => None
  }

  /** The owner of job `j` asks to renew the lease, or delivers a result. */
  predicate Attends(h: Hub, e: Event, j: nat) {
    j < |h.jobs| && match e
      case RenewEvent(job, node, _) => job == j && node == h.jobs[j].node
      case DeliverEvent(job, node, _, _, _, _) => job == j && node == h.jobs[j].node
      case _ => false
  }

  function RefreshAt(h: Hub, events: seq<Event>, i: nat, j: nat): Option<int>
    requires SagaInv(h) && i < |events|
  {
    RefreshTime(Run(h, events[..i]), events[i], j)
  }

  predicate AttendsAt(h: Hub, events: seq<Event>, i: nat, j: nat)
    requires SagaInv(h) && i < |events|
  {
    Attends(Run(h, events[..i]), events[i], j)
  }

  predicate AttendedBetween(h: Hub, events: seq<Event>, i: nat, m: nat, j: nat)
    requires SagaInv(h) && m <= |events|
  {
    exists k :: i < k < m && AttendsAt(h, events, k, j)
  }

  /** Transaction `i` refreshes the lease and transaction `m` is stamped more than a minute and `delay` seconds
      later. */
  predicate Overdue(h: Hub, events: seq<Event>, i: nat, m: nat, j: nat, delay: nat)
    requires SagaInv(h) && i < m < |events|
  {
    var at, clock := RefreshAt(h, events, i, j), Clock(events[m]);
    at.Some? && clock.Some? && clock.value > at.value + 60 + delay
  }

  /** From the claim on the Agent is heard of within a minute and `delay` seconds of each refresh, by the next renewal
      or by the result. The delay is what the requests and the retries of a result add. */
  predicate Attended(h: Hub, events: seq<Event>, j: nat, delay: nat)
    requires SagaInv(h)
  {
    forall i, m :: 0 <= i < m < |events| && Overdue(h, events, i, m, j, delay) ==> AttendedBetween(h, events, i, m, j)
  }

  /** Where the last refresh stands in the run. */
  lemma {:induction false} LastRefreshStands(h: Hub, events: seq<Event>, j: nat) returns (i: nat)
    requires SagaInv(h) && LastRefresh(h, events, j).Some?
    ensures i < |events| && RefreshAt(h, events, i, j) == LastRefresh(h, events, j)
    ensures forall k :: i < k < |events| ==> RefreshAt(h, events, k, j).None?
  {
    hide Run, RefreshTime;
    var n := |events| - 1;
    var rest := events[..n];
    if RefreshTime(Run(h, rest), events[n], j).Some? {
      i := n;
    } else {
      i := LastRefreshStands(h, rest, j);
      assert rest[..i] == events[..i];
      forall k | i < k < |events| ensures RefreshAt(h, events, k, j).None? {
        if k < n { assert rest[..k] == events[..k] && RefreshAt(h, rest, k, j).None?; }
      }
    }
  }

  /** A job that is running now has been running since its last refresh, and its owner has not been heard of. */
  lemma {:induction false} UnattendedSince(h: Hub, events: seq<Event>, i: nat, k: nat, j: nat)
    requires SagaInv(h) && i < k < |events| && IsRunning(Run(h, events), j)
    requires forall l :: i < l < |events| ==> RefreshAt(h, events, l, j).None?
    ensures !AttendsAt(h, events, k, j)
    decreases |events|
  {
    var n := |events| - 1;
    var rest := events[..n];
    var before, e := RunStep(h, events);
    StepMovesJob(before, e, j);
    assert RefreshAt(h, events, n, j).None?;
    assert IsRunning(before, j) && !Finishes(before, e, j);
    if k < n {
      forall l | i < l < |rest| ensures RefreshAt(h, rest, l, j).None? {
        assert rest[..l] == events[..l] && RefreshAt(h, events, l, j).None?;
      }
      UnattendedSince(h, rest, i, k, j);
      assert rest[..k] == events[..k];
    }
  }

  lemma AttendedPrefix(h: Hub, events: seq<Event>, j: nat, delay: nat)
    requires SagaInv(h) && events != [] && Attended(h, events, j, delay)
    ensures Attended(h, events[..|events| - 1], j, delay)
  {
    hide Run, RefreshTime, Attends;
    var rest := events[..|events| - 1];
    forall i, m | 0 <= i < m < |rest| && Overdue(h, rest, i, m, j, delay) ensures AttendedBetween(h, rest, i, m, j) {
      assert rest[..i] == events[..i] && Overdue(h, events, i, m, j, delay);
      var k :| i < k < m && AttendsAt(h, events, k, j);
      assert rest[..k] == events[..k];
      assert AttendsAt(h, rest, k, j);
    }
  }

  lemma {:induction false} AttendedKeepsLease(h: Hub, events: seq<Event>, j: nat, delay: nat)
    requires SagaInv(h) && |h.jobs| <= j && Attended(h, events, j, delay) && 60 + delay <= LEASE_SECONDS
    ensures LeaseKept(h, events, j)
  {
    if events != [] {
      var n := |events| - 1;
      var rest, e := events[..n], events[n];
      AttendedPrefix(h, events, j, delay);
      AttendedKeepsLease(h, rest, j, delay);
      if e.CycleEvent? && IsRunning(Run(h, rest), j) {
        CycleFindsLeaseKept(h, events, j, delay);
      }
    }
  }

  lemma CycleFindsLeaseKept(h: Hub, events: seq<Event>, j: nat, delay: nat)
    requires SagaInv(h) && |h.jobs| <= j && Attended(h, events, j, delay) && 60 + delay <= LEASE_SECONDS
    requires events != [] && events[|events| - 1].CycleEvent? && IsRunning(Run(h, events[..|events| - 1]), j)
    ensures var at := LastRefresh(h, events[..|events| - 1], j);
      at.Some? && events[|events| - 1].now - at.value <= LEASE_SECONDS
  {
    var n := |events| - 1;
    var rest, e := events[..n], events[n];
    StartIsLastRefresh(h, rest, j);
    RunningHasStart(h, rest, j);
    var i := LastRefreshStands(h, rest, j);
    hide Run, RefreshTime, Attends;
    assert rest[..i] == events[..i];
    assert RefreshAt(h, events, i, j) == LastRefresh(h, rest, j);
    if e.now - LastRefresh(h, rest, j).value > LEASE_SECONDS {
      assert Overdue(h, events, i, n, j, delay);
      var k :| i < k < n && AttendsAt(h, events, k, j);
      assert rest[..k] == events[..k];
      UnattendedSince(h, rest, i, k, j);
    }
  }

  /** An Agent that renews every minute keeps its lease as long as nothing delays it by more than four more. */
  lemma {:induction false} RenewalsKeepLease(h: Hub, events: seq<Event>, j: nat, delay: nat)
    requires SagaInv(h) && |h.jobs| <= j && Attended(h, events, j, delay) && 60 + delay <= LEASE_SECONDS
    ensures LeaseKept(h, events, j) && Claims(h, events, j) <= 1
  {
    AttendedKeepsLease(h, events, j, delay);
    KeptLeaseMeansOneOwner(h, events, j);
  }

  /** A Hub with these jobs and nothing else. */
  function Only(jobs: seq<Job>): Hub { Hub(jobs, [], [], [], [], [], {}) }

  /** The run leads here and has claimed job 0 so often. */
  ghost predicate Leads(events: seq<Event>, jobs: seq<Job>, claims: nat) {
    Run(Only([]), events) == Only(jobs) && Claims(Only([]), events, 0) == claims
  }

  lemma NextLeads(events: seq<Event>, jobs: seq<Job>, claims: nat, e: Event, longer: seq<Event>, jobs': seq<Job>)
    requires Leads(events, jobs, claims) && longer == events + [e] && Step(Only(jobs), e).hub == Only(jobs')
    ensures Leads(longer, jobs', claims + if Takes(Only(jobs), e, 0) then 1 else 0)
  {
    hide Step, Takes;
    assert longer[..|events|] == events;
    RunAppend(Only([]), events, e);
  }

  lemma RefreshIsStamped(h: Hub, e: Event, j: nat)
    ensures RefreshTime(h, e, j).Some? ==> RefreshTime(h, e, j) == Clock(e)
  {
  }

  const WAITING := NewJob(1, Misc)

  function Claimed(now: int): Job { WAITING.(status := Running, startedAt := Some(now)) }

  const ONCE_QUEUED: seq<Event> := [InsertEvent(1, None)]
  const LATE_RUN: seq<Event> := ONCE_QUEUED + [ClaimEvent(1, 0), CycleEvent(301), ClaimEvent(1, 301)]

  lemma LateRunIsAttended()
    ensures Attended(Only([]), LATE_RUN, 0, 241)
  {
    hide Run, RefreshTime, Attends;
    forall i, m | 0 <= i < m < |LATE_RUN| ensures !Overdue(Only([]), LATE_RUN, i, m, 0, 241) {
      RefreshIsStamped(Run(Only([]), LATE_RUN[..i]), LATE_RUN[i], 0);
    }
  }

  /** One second more is too much: a job attended within 301 seconds is claimed twice. */
  lemma LateRenewalLosesLease()
    ensures Attended(Only([]), LATE_RUN, 0, 241) && Claims(Only([]), LATE_RUN, 0) == 2
  {
    LateRunIsAttended();
    var first, again := ClaimEvent(1, 0), ClaimEvent(1, 301);
    var claimed := ONCE_QUEUED + [first];
    assert Leads([], [], 0);
    hide Run, Claims, Attended;
    NextLeads([], [], 0, ONCE_QUEUED[0], ONCE_QUEUED, [WAITING]);
    NextLeads(ONCE_QUEUED, [WAITING], 0, first, claimed, [Claimed(0)]);
    NextLeads(claimed, [Claimed(0)], 1, CycleEvent(301), claimed + [CycleEvent(301)], [WAITING]);
    NextLeads(claimed + [CycleEvent(301)], [WAITING], 1, again, LATE_RUN, [Claimed(301)]);
  }
}
