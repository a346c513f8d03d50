/** The two-node deployment saga over every interleaving of handlers. */
module Saga {
  import opened Common
  import opened JobQueue
  import opened HubState

  /** One committed transaction of the Hub. */
  datatype Event =
    | CreateEvent(plugin: string, name: string, iran: nat, kharej: nat, permitted: bool)
    | InsertEvent(node: nat, monitor: Option<nat>)
    | ClaimEvent(node: nat, now: int)
    | RenewEvent(job: nat, node: nat, now: int)
    | DeliverEvent(job: nat, node: nat, completed: bool, output: string, reportUp: bool, left: bool)
    | CycleEvent(now: int)
    | RetryEvent(dep: nat, permitted: bool)
    | RemoveEvent(dep: nat)
    | ReconfigureEvent(dep: nat, permitted: bool)
    | RemoveTunnelEvent(node: nat, plugin: string, name: string)
    | CreateFleetEvent(nodes: seq<nat>)
    | QueueFleetEvent(op: nat)
    | CancelFleetEvent(op: nat)

  function Accept(h: Hub): Outcome { Outcome(h, Accepted) }

  function Step(h: Hub, e: Event): Outcome
    requires forall d :: 0 <= d < |h.deps| ==> Linked(h, d)
  {
    match e
    case CreateEvent(plugin, name, iran, kharej, permitted) => Create(h, plugin, name, iran, kharej, permitted)
    case InsertEvent(node, monitor) =>
      Accept(Insert(h, node, if monitor.Some? then MonitorRun(monitor.value) else Misc))
    case ClaimEvent(node, now) => Accept(h.(jobs := Claim(h.jobs, node, now)))
    case RenewEvent(job, node, now) =>
      Outcome(h.(jobs := Renew(h.jobs, job, node, now)), if Renewable(h.jobs, job, node) then Accepted else Conflict)
    case DeliverEvent(job, node, completed, output, up, left) => Deliver(h, job, node, completed, output, up, left)
    case CycleEvent(now) => Accept(h.(jobs := Requeue(h.jobs, now)))
    case RetryEvent(d, permitted) => Retry(h, d, permitted)
    case RemoveEvent(d) => RemoveDeployment(h, d)
    case ReconfigureEvent(d, permitted) => Reconfigure(h, d, permitted)
    case RemoveTunnelEvent(node, plugin, name) => RemoveTunnel(h, node, plugin, name)
    case CreateFleetEvent(nodes) => Accept(CreateFleet(h, nodes))
    case QueueFleetEvent(op) => Accept(QueueFleet(h, op))
    case CancelFleetEvent(op) => Accept(CancelFleet(h, op))
  }

  // ---- the invariant -----------------------------------------------------------

  predicate ForSide(kind: Kind, d: nat, side: Side) { kind == Deploy(d, side) || kind == Remove(d, side) }

  predicate LinkOk(row: Deployment, d: nat, side: Side, jobs: seq<Job>) {
    var j := row.JobOf(side);
    j < |jobs| && ForSide(jobs[j].kind, d, side) && jobs[j].node == row.NodeOf(side)
  }

  /** Beside a failed deploy, the other side's job is a removal with one of these statuses. */
  predicate Compensating(row: Deployment, d: nat, jobs: seq<Job>, side: Side, allowed: set<Status>)
    requires LinkOk(row, d, Iran, jobs) && LinkOk(row, d, Kharej, jobs)
  {
    var undo, failed := jobs[row.JobOf(side)], jobs[row.JobOf(side.Other())];
    undo.kind == Remove(d, side) && undo.status in allowed && failed.kind == Deploy(d, side.Other()) &&
      failed.status == Failed
  }

  predicate LifecycleOk(row: Deployment, d: nat, jobs: seq<Job>)
    requires LinkOk(row, d, Iran, jobs) && LinkOk(row, d, Kharej, jobs)
  {
    var iran, kharej := jobs[row.iranJob], jobs[row.kharejJob];
    match row.lifecycle
    case Active =>
      && {iran.status, kharej.status} != {Completed, Failed}
      && (iran.kind.Remove? ==> iran.status == Completed)
      && (kharej.kind.Remove? ==> kharej.status == Completed)
    case Removing => iran.kind.Remove? && kharej.kind.Remove?
    case RollingBack => Compensating(row, d, jobs, Iran, {Queued, Running}) ||
      Compensating(row, d, jobs, Kharej, {Queued, Running})
    case RolledBack => Compensating(row, d, jobs, Iran, {Completed}) || Compensating(row, d, jobs, Kharej, {Completed})
    case RollbackFailed => Compensating(row, d, jobs, Iran, {Failed}) || Compensating(row, d, jobs, Kharej, {Failed})
  }

  predicate RowOk(row: Deployment, d: nat, jobs: seq<Job>) {
    LinkOk(row, d, Iran, jobs) && LinkOk(row, d, Kharej, jobs) && LifecycleOk(row, d, jobs)
  }

  predicate SagaInv(h: Hub) {
    forall d :: 0 <= d < |h.deps| ==> RowOk(h.deps[d], d, h.jobs)
  }

  lemma LinksResolve(h: Hub)
    requires SagaInv(h)
    ensures forall d :: 0 <= d < |h.deps| ==> Linked(h, d)
  {
    forall d | 0 <= d < |h.deps| ensures Linked(h, d) { assert RowOk(h.deps[d], d, h.jobs); }
  }

  /** A job is linked by at most one row, on the side it was queued for. */
  lemma LinkedOnce(h: Hub, d: nat, side: Side)
    requires SagaInv(h) && d < |h.deps|
    ensures FirstLinked(h.deps, h.deps[d].JobOf(side)) == Some(d)
  {
    var j := h.deps[d].JobOf(side);
    assert RowOk(h.deps[d], d, h.jobs);
    var first := FirstLinked(h.deps, j);
    assert Links(h.deps[d], j);
    assert RowOk(h.deps[first.value], first.value, h.jobs);
  }

  // ---- preservation --------------------------------------------------------------

  /** Rows only look at the jobs they link. */
  lemma RowFrame(row: Deployment, d: nat, jobs: seq<Job>, jobs': seq<Job>)
    requires RowOk(row, d, jobs) && |jobs| <= |jobs'|
    requires jobs'[row.iranJob] == jobs[row.iranJob] && jobs'[row.kharejJob] == jobs[row.kharejJob]
    ensures RowOk(row, d, jobs')
  {
  }

  /** Time and output columns play no part. */
  lemma RowIgnoresLease(row: Deployment, d: nat, jobs: seq<Job>, jobs': seq<Job>)
    requires RowOk(row, d, jobs) && |jobs| == |jobs'|
    requires forall j :: 0 <= j < |jobs| ==>
      && jobs'[j].kind == jobs[j].kind && jobs'[j].node == jobs[j].node
      && (jobs'[j].status == jobs[j].status || !(jobs'[j].status.Terminal() || jobs[j].status.Terminal()))
    ensures RowOk(row, d, jobs')
  {
  }

  /** The side keeps its job, or has a fresh deploy. */
  lemma RetrySideKeepsOrQueues(h: Hub, d: nat, side: Side, was: Status, wasRolledBack: bool)
    requires d < |h.deps|
    ensures var h' := RetrySide(h, d, side, was, wasRolledBack);
      && |h'.deps| == |h.deps| && h'.deps == h.deps[d := h'.deps[d]]
      && (if was.Completed? && !wasRolledBack then h' == h else
            && h'.deps[d] == h.deps[d].Relink(side, |h.jobs|)
            && h'.jobs == h.jobs + [NewJob(h.deps[d].NodeOf(side), Deploy(d, side))])
  {
  }

  lemma RetriedRowOk(h: Hub, d: nat, permitted: bool)
    requires d < |h.deps| && RowOk(h.deps[d], d, h.jobs)
    requires Linked(h, d) && Retriable(h, d, permitted)
    ensures var h' := Retry(h, d, permitted).hub;
      && |h'.deps| == |h.deps| && h'.deps == h.deps[d := h'.deps[d]]
      && |h.jobs| <= |h'.jobs| && h'.jobs[..|h.jobs|] == h.jobs && RowOk(h'.deps[d], d, h'.jobs)
  {
    var rolled := h.deps[d].lifecycle.RolledBack?;
    var h0 := SetLifecycle(h, d, Active);
    var h1 := RetrySide(h0, d, Iran, StatusOf(h, d, Iran), rolled);
    RetrySideKeepsOrQueues(h0, d, Iran, StatusOf(h, d, Iran), rolled);
    RetrySideKeepsOrQueues(h1, d, Kharej, StatusOf(h, d, Kharej), rolled);
    hide RetrySide;
  }

  lemma RetryKeeps(h: Hub, d: nat, permitted: bool)
    requires SagaInv(h) && d < |h.deps|
    requires Linked(h, d)
    ensures SagaInv(Retry(h, d, permitted).hub)
  {
    if Retriable(h, d, permitted) {
      var h' := Retry(h, d, permitted).hub;
      assert RowOk(h.deps[d], d, h.jobs);
      RetriedRowOk(h, d, permitted);
      hide Retry, Retriable, LifecycleOk;
      assert forall k :: 0 <= k < |h.jobs| ==> h'.jobs[..|h.jobs|][k] == h.jobs[k];
      forall e | 0 <= e < |h'.deps| ensures RowOk(h'.deps[e], e, h'.jobs) {
        if e != d { RowFrame(h.deps[e], e, h.jobs, h'.jobs); }
      }
    }
  }

  lemma RelinkBothKeeps(h: Hub, d: nat, remove: bool)
    requires SagaInv(h) && d < |h.deps|
    requires remove || h.deps[d].lifecycle.Active?
    ensures SagaInv(if remove then SetLifecycle(QueueBoth(h, d, true), d, Removing) else QueueBoth(h, d, false))
  {
    var h' := if remove then SetLifecycle(QueueBoth(h, d, true), d, Removing) else QueueBoth(h, d, false);
    assert RowOk(h.deps[d], d, h.jobs);
    forall e | 0 <= e < |h'.deps| ensures RowOk(h'.deps[e], e, h'.jobs) {
      if e != d { RowFrame(h.deps[e], e, h.jobs, h'.jobs); }
    }
  }

  lemma QueueItemsExtendsJobs(h: Hub, op: nat, upTo: nat)
    requires upTo <= |h.items|
    ensures var r := QueueItems(h, op, upTo);
      r.jobs[..|h.jobs|] == h.jobs && r.installed == h.installed && r.checks == h.checks
  {
    if upTo > 0 { QueueItemsExtendsJobs(h, op, upTo - 1); }
  }

  lemma ExtendingJobsKeeps(h: Hub, h': Hub)
    requires SagaInv(h) && h'.deps == h.deps
    requires |h.jobs| <= |h'.jobs| && h'.jobs[..|h.jobs|] == h.jobs
    ensures SagaInv(h')
  {
    forall e | 0 <= e < |h'.deps| ensures RowOk(h'.deps[e], e, h'.jobs) {
      assert RowOk(h.deps[e], e, h.jobs);
      assert forall k :: 0 <= k < |h.jobs| ==> h'.jobs[..|h.jobs|][k] == h.jobs[k];
      RowFrame(h.deps[e], e, h.jobs, h'.jobs);
    }
  }

  lemma CreateKeeps(h: Hub, plugin: string, name: string, iran: nat, kharej: nat, permitted: bool)
    requires SagaInv(h)
    ensures SagaInv(Create(h, plugin, name, iran, kharej, permitted).hub)
  {
    var h' := Create(h, plugin, name, iran, kharej, permitted).hub;
    forall e | 0 <= e < |h'.deps| ensures RowOk(h'.deps[e], e, h'.jobs) {
      if e < |h.deps| { RowFrame(h.deps[e], e, h.jobs, h'.jobs); }
    }
  }

  /** `jobs1` is `jobs` with job `j` turned from running to a terminal status. */
  predicate TurnsTerminal(jobs: seq<Job>, jobs1: seq<Job>, j: nat, status: Status) {
    && |jobs1| == |jobs| && j < |jobs| && status.Terminal() && jobs[j].status == Running
    && (forall k :: 0 <= k < |jobs| && k != j ==> jobs1[k] == jobs[k])
    && jobs1[j].kind == jobs[j].kind && jobs1[j].node == jobs[j].node && jobs1[j].status == status
  }

  /** What a row that links the finished job needs from the rest of the Hub. */
  predicate Finishing(h: Hub, h1: Hub, d: nat, side: Side, status: Status) {
    && d < |h.deps| && h1.deps == h.deps && RowOk(h.deps[d], d, h.jobs)
    && TurnsTerminal(h.jobs, h1.jobs, h.deps[d].JobOf(side), status)
    && FirstLinked(h.deps, h.deps[d].JobOf(side)) == Some(d) && h.deps[d].JobOf(side.Other()) != h.deps[d].JobOf(side)
  }

  /** A split outcome: the rollback starts on the side whose deploy completed. */
  lemma SplitRow(h: Hub, j: nat, status: Status, d: nat, winner: Side)
    requires forall d :: 0 <= d < |h.deps| ==> Linked(h, d)
    requires FirstLinked(h.deps, j) == Some(d) && h.deps[d].lifecycle.Active?
    requires StatusOf(h, d, winner).Completed? && StatusOf(h, d, winner.Other()).Failed?
    ensures var h' := DeploymentEffect(h, j, status);
      && |h'.deps| == |h.deps| && h'.installed == h.installed
      && h'.deps[d] == h.deps[d].Relink(winner, |h.jobs|).(lifecycle := RollingBack)
      && h'.jobs == h.jobs + [NewJob(h.deps[d].NodeOf(winner), Remove(d, winner))]
  {
    assert Linked(h, d) && Split(h, d);
    assert (if StatusOf(h, d, Iran).Completed? then Iran else Kharej) == winner;
  }

  lemma UnsplitRow(h: Hub, j: nat, status: Status, d: nat)
    requires forall d :: 0 <= d < |h.deps| ==> Linked(h, d)
    requires FirstLinked(h.deps, j) == Some(d) && status.Terminal() && (h.deps[d].lifecycle.Active? ==> !Split(h, d))
    ensures var h' := DeploymentEffect(h, j, status);
      && |h'.deps| == |h.deps| && h'.installed == h.installed && h'.jobs == h.jobs
      && h'.deps[d] == if !h.deps[d].lifecycle.RollingBack? then h.deps[d]
                       else h.deps[d].(lifecycle := if status.Completed? then RolledBack else RollbackFailed)
  {
  }

  lemma SplitRowSettles(h: Hub, h1: Hub, d: nat, side: Side, status: Status, winner: Side)
    requires Finishing(h, h1, d, side, status) && h.deps[d].lifecycle.Active?
    requires forall d :: 0 <= d < |h1.deps| ==> Linked(h1, d)
    requires StatusOf(h1, d, winner).Completed? && StatusOf(h1, d, winner.Other()).Failed?
    ensures var h' := DeploymentEffect(h1, h.deps[d].JobOf(side), status);
      RowOk(h'.deps[d], d, h'.jobs)
  {
    var row := h.deps[d];
    SplitRow(h1, row.JobOf(side), status, d, winner);
    hide DeploymentEffect;
    assert h1.jobs[row.JobOf(winner.Other())].kind == Deploy(d, winner.Other());
    var h' := DeploymentEffect(h1, row.JobOf(side), status);
    assert Compensating(h'.deps[d], d, h'.jobs, winner, {Queued, Running});
  }

  lemma ActiveRowSettles(h: Hub, h1: Hub, d: nat, side: Side, status: Status)
    requires Finishing(h, h1, d, side, status) && h.deps[d].lifecycle.Active?
    requires forall d :: 0 <= d < |h1.deps| ==> Linked(h1, d)
    ensures var h' := DeploymentEffect(h1, h.deps[d].JobOf(side), status);
      RowOk(h'.deps[d], d, h'.jobs)
  {
    var row := h.deps[d];
    if Split(h1, d) {
      var winner := if StatusOf(h1, d, Iran).Completed? then Iran else Kharej;
      assert StatusOf(h1, d, winner.Other()) in {StatusOf(h1, d, Iran), StatusOf(h1, d, Kharej)};
      SplitRowSettles(h, h1, d, side, status, winner);
    } else {
      UnsplitRow(h1, row.JobOf(side), status, d);
      hide DeploymentEffect;
      assert {h1.jobs[row.iranJob].status, h1.jobs[row.kharejJob].status} != {Completed, Failed};
    }
  }

  lemma OtherRowSettles(h: Hub, h1: Hub, d: nat, side: Side, status: Status)
    requires Finishing(h, h1, d, side, status) && !h.deps[d].lifecycle.Active?
    requires forall d :: 0 <= d < |h1.deps| ==> Linked(h1, d)
    ensures var h' := DeploymentEffect(h1, h.deps[d].JobOf(side), status);
      RowOk(h'.deps[d], d, h'.jobs)
  {
    var row := h.deps[d];
    if row.lifecycle.RollingBack? {
      var h' := DeploymentEffect(h1, row.JobOf(side), status);
      assert Compensating(row, d, h.jobs, side, {Queued, Running});
      assert Compensating(h'.deps[d], d, h'.jobs, side, {status});
    }
  }

  /** The only place where a row may be disturbed: its own job turns terminal. */
  lemma LinkedRowSettles(h: Hub, h1: Hub, d: nat, side: Side, status: Status)
    requires SagaInv(h) && d < |h.deps| && h1.deps == h.deps
    requires TurnsTerminal(h.jobs, h1.jobs, h.deps[d].JobOf(side), status)
    requires forall d :: 0 <= d < |h1.deps| ==> Linked(h1, d)
    ensures var h' := DeploymentEffect(h1, h.deps[d].JobOf(side), status);
      RowOk(h'.deps[d], d, h'.jobs)
  {
    hide DeploymentEffect;
    assert RowOk(h.deps[d], d, h.jobs);
    LinkedOnce(h, d, side);
    if h.deps[d].lifecycle.Active? {
      ActiveRowSettles(h, h1, d, side, status);
    } else {
      OtherRowSettles(h, h1, d, side, status);
    }
  }

  lemma DeploymentEffectKeeps(h: Hub, h1: Hub, j: nat, status: Status)
    requires SagaInv(h) && TurnsTerminal(h.jobs, h1.jobs, j, status) && h1.deps == h.deps
    requires forall d :: 0 <= d < |h1.deps| ==> Linked(h1, d)
    ensures SagaInv(DeploymentEffect(h1, j, status))
  {
    var h' := DeploymentEffect(h1, j, status);
    forall e | 0 <= e < |h.deps| ensures RowOk(h'.deps[e], e, h'.jobs) {
      if Links(h.deps[e], j) {
        LinkedRowSettles(h, h1, e, if h.deps[e].iranJob == j then Iran else Kharej, status);
      } else {
        RowFrame(h.deps[e], e, h.jobs, h'.jobs);
      }
    }
  }

  lemma DeliverKeeps(h: Hub, j: nat, node: nat, completed: bool, output: string, up: bool, left: bool)
    requires SagaInv(h)
    requires forall d :: 0 <= d < |h.deps| ==> Linked(h, d)
    ensures SagaInv(Deliver(h, j, node, completed, output, up, left).hub)
  {
    if Deliver(h, j, node, completed, output, up, left).reply == Accepted {
      var status := if completed then Completed else Failed;
      var h1 := BeforeDeploymentEffect(h, j, status, output, up, left);
      assert forall d :: 0 <= d < |h.deps| ==> Linked(h, d) ==> Linked(h1, d);
      DeploymentEffectKeeps(h, h1, j, status);
    }
  }

  lemma QueueStepsKeep(h: Hub, e: Event)
    requires SagaInv(h)
    requires forall d :: 0 <= d < |h.deps| ==> Linked(h, d)
    requires e.ClaimEvent? || e.RenewEvent? || e.CycleEvent? || e.CreateFleetEvent? || e.CancelFleetEvent?
    ensures SagaInv(Step(h, e).hub)
  {
    var h' := Step(h, e).hub;
    forall d | 0 <= d < |h'.deps| ensures RowOk(h'.deps[d], d, h'.jobs) {
      RowIgnoresLease(h.deps[d], d, h.jobs, h'.jobs);
    }
  }

  lemma StepKeeps(h: Hub, e: Event)
    requires SagaInv(h)
    requires forall d :: 0 <= d < |h.deps| ==> Linked(h, d)
    ensures SagaInv(Step(h, e).hub)
  {
    hide RowOk;
    var h' := Step(h, e).hub;
    match e
    case CreateEvent(plugin, name, iran, kharej, permitted) => CreateKeeps(h, plugin, name, iran, kharej, permitted);
    case InsertEvent(_, _) => ExtendingJobsKeeps(h, h');
    case DeliverEvent(job, node, completed, output, up, left) =>
      DeliverKeeps(h, job, node, completed, output, up, left);
    case RetryEvent(d, permitted) => if d < |h.deps| { RetryKeeps(h, d, permitted); }
    case RemoveEvent(d) => if d < |h.deps| { RelinkBothKeeps(h, d, true); }
    case ReconfigureEvent(d, _) => if h' != h { RelinkBothKeeps(h, d, false); }
    case RemoveTunnelEvent(node, _, name) =>
      var managed := FirstManaged(h.deps, node, name);
      if managed.Some? { RelinkBothKeeps(h, managed.value, true); } else { ExtendingJobsKeeps(h, h'); }
    case QueueFleetEvent(op) => QueueItemsExtendsJobs(h, op, |h.items|); ExtendingJobsKeeps(h, h');
    case _ => QueueStepsKeep(h, e);
  }

  // ---- runs --------------------------------------------------------------------

  /** The Hub after a finite sequence of transactions, in commit order. */
  function Run(h: Hub, events: seq<Event>): (r: Hub)
    requires SagaInv(h)
    ensures SagaInv(r)
  {
    if events == [] then h
    else
      var before := Run(h, events[..|events| - 1]);
      var e := events[|events| - 1];
      LinksResolve(before);
      StepKeeps(before, e);
      Step(before, e).hub
  }

  lemma RunAppend(h: Hub, events: seq<Event>, e: Event)
    requires SagaInv(h)
    ensures forall d :: 0 <= d < |Run(h, events).deps| ==> Linked(Run(h, events), d)
    ensures Run(h, events + [e]) == Step(Run(h, events), e).hub
  {
    assert (events + [e])[..|events|] == events;
    LinksResolve(Run(h, events));
  }
}
