/** What the saga guarantees at every point of every run. */
module SagaTheorems {
  import opened Common
  import opened JobQueue
  import opened HubState
  import opened Saga
  import opened ExactlyOnce

  function Empty(monitors: seq<Monitor>): Hub {
    Hub([], [], monitors, [], [], [], {})
  }

  function RunFrom(monitors: seq<Monitor>, events: seq<Event>): (r: Hub)
    ensures SagaInv(r)
    ensures forall d :: 0 <= d < |r.deps| ==> Linked(r, d)
  {
    LinksResolve(Run(Empty(monitors), events));
    Run(Empty(monitors), events)
  }

  predicate OpenRemoval(h: Hub, d: nat, side: Side)
    requires Linked(h, d)
  {
    var j := h.deps[d].JobOf(side);
    h.jobs[j].kind == Remove(d, side) && !h.jobs[j].status.Terminal()
  }

  predicate FailedDeploy(h: Hub, d: nat, side: Side)
    requires Linked(h, d)
  {
    var j := h.deps[d].JobOf(side);
    h.jobs[j].kind == Deploy(d, side) && h.jobs[j].status == Failed
  }

  /** `active` never rests on a split outcome; `rolling_back` always has exactly one unfinished
      linked job, a removal, beside a failed deploy; `rolled_back` has that removal completed. */
  lemma SagaAtEveryPoint(monitors: seq<Monitor>, events: seq<Event>, d: nat)
    requires d < |RunFrom(monitors, events).deps|
    ensures var h := RunFrom(monitors, events);
      match h.deps[d].lifecycle
      case Active => !Split(h, d)
      case Removing => forall s: Side :: h.jobs[h.deps[d].JobOf(s)].kind == Remove(d, s)
      case RollingBack => exists s: Side :: OpenRemoval(h, d, s) && FailedDeploy(h, d, s.Other())
      case RolledBack => exists s: Side :: StatusOf(h, d, s).Completed? && FailedDeploy(h, d, s.Other())
      case RollbackFailed => StatusOf(h, d, Iran).Failed? && StatusOf(h, d, Kharej).Failed?
  {
    var h := RunFrom(monitors, events);
    assert RowOk(h.deps[d], d, h.jobs);
    var row := h.deps[d];
    match row.lifecycle
    case RollingBack =>
      var s := if Compensating(row, d, h.jobs, Iran, {Queued, Running}) then Iran else Kharej;
      assert OpenRemoval(h, d, s) && FailedDeploy(h, d, s.Other());
    case RolledBack =>
      var s := if Compensating(row, d, h.jobs, Iran, {Completed}) then Iran else Kharej;
      assert StatusOf(h, d, s).Completed? && FailedDeploy(h, d, s.Other());
    case _ =>
  }

  lemma UnlinkedRowStays(h: Hub, j: nat, status: Status, d: nat)
    requires d < |h.deps| && !Links(h.deps[d], j)
    requires forall d :: 0 <= d < |h.deps| ==> Linked(h, d)
    ensures |DeploymentEffect(h, j, status).deps| == |h.deps| && DeploymentEffect(h, j, status).deps[d] == h.deps[d]
  {
  }

  lemma DeploymentEffectOnRow(h: Hub, h1: Hub, j: nat, status: Status, d: nat)
    requires SagaInv(h) && d < |h.deps| && h1.deps == h.deps && TurnsTerminal(h.jobs, h1.jobs, j, status)
    requires forall d :: 0 <= d < |h1.deps| ==> Linked(h1, d)
    ensures var h' := DeploymentEffect(h1, j, status);
      && |h'.deps| == |h.deps|
      && (!Links(h.deps[d], j) ==> h'.deps[d] == h.deps[d])
      && (Links(h.deps[d], j) ==>
            && h'.deps[d].lifecycle == (
                 if h.deps[d].lifecycle.Active? && Split(h1, d) then RollingBack
                 else if h.deps[d].lifecycle.RollingBack? then
                   (if status.Completed? then RolledBack else RollbackFailed)
                 else h.deps[d].lifecycle)
            && |h'.jobs| == |h1.jobs| + (if h.deps[d].lifecycle.Active? && Split(h1, d) then 1 else 0))
  {
    if Links(h.deps[d], j) {
      assert RowOk(h.deps[d], d, h.jobs);
      LinkedOnce(h, d, if h.deps[d].iranJob == j then Iran else Kharej);
      hide SagaInv, RowOk, Split;
    } else {
      UnlinkedRowStays(h1, j, status, d);
      hide DeploymentEffect;
    }
  }

  lemma RollbackIsUnsettled(h: Hub, d: nat)
    requires d < |h.deps| && RowOk(h.deps[d], d, h.jobs) && h.deps[d].lifecycle.RollingBack? && Linked(h, d)
    ensures !Settled(h, d)
  {
  }

  lemma RetryLeavesOtherRows(h: Hub, dep: nat, permitted: bool, d: nat)
    requires (dep < |h.deps| ==> Linked(h, dep)) && d < |h.deps|
    requires d != dep || h.deps[d].lifecycle.RollingBack?
    ensures |Retry(h, dep, permitted).hub.deps| == |h.deps| && Retry(h, dep, permitted).hub.deps[d] == h.deps[d]
  {
  }

  lemma OtherStepsLeaveRollback(h: Hub, e: Event, d: nat)
    requires forall d :: 0 <= d < |h.deps| ==> Linked(h, d)
    requires d < |h.deps| && RowOk(h.deps[d], d, h.jobs) && h.deps[d].lifecycle.RollingBack? && !e.DeliverEvent?
    ensures |h.deps| <= |Step(h, e).hub.deps| && Step(h, e).hub.deps[d] == h.deps[d]
  {
    RollbackIsUnsettled(h, d);
    if e.RetryEvent? { RetryLeavesOtherRows(h, e.dep, e.permitted, d); }
    hide RowOk, Retry, Settled;
  }

  lemma OpenRemovalThere(h: Hub, d: nat) returns (s: Side)
    requires d < |h.deps| && RowOk(h.deps[d], d, h.jobs) && h.deps[d].lifecycle.RollingBack? && Linked(h, d)
    ensures OpenRemoval(h, d, s) && FailedDeploy(h, d, s.Other())
  {
    s := if Compensating(h.deps[d], d, h.jobs, Iran, {Queued, Running}) then Iran else Kharej;
  }

  lemma ResultEndsRollback(h: Hub, e: Event, d: nat)
    requires SagaInv(h) && d < |h.deps| && h.deps[d].lifecycle.RollingBack? && e.DeliverEvent?
    requires forall d :: 0 <= d < |h.deps| ==> Linked(h, d)
    requires Step(h, e).reply == Accepted
    ensures |h.deps| <= |Step(h, e).hub.deps|
    ensures Step(h, e).hub.deps[d] ==
      if Links(h.deps[d], e.job) then h.deps[d].(lifecycle := if e.completed then RolledBack else RollbackFailed)
      else h.deps[d]
    ensures Links(h.deps[d], e.job) ==>
      exists s: Side :: h.deps[d].JobOf(s) == e.job && OpenRemoval(h, d, s) && FailedDeploy(h, d, s.Other())
  {
    var h1, status := DeliveryStages(h, e);
    DeploymentEffectOnRow(h, h1, e.job, status, d);
    assert RowOk(h.deps[d], d, h.jobs);
    var s := OpenRemovalThere(h, d);
    if Links(h.deps[d], e.job) { LinkedOnce(h, d, s); }
    hide SagaInv, RowOk, Step;
  }

  /** The only exit from `rolling_back` is the result of that very removal. */
  lemma OnlyItsRemovalEndsRollback(h: Hub, e: Event, d: nat)
    requires SagaInv(h) && d < |h.deps| && h.deps[d].lifecycle.RollingBack?
    requires forall d :: 0 <= d < |h.deps| ==> Linked(h, d)
    ensures |h.deps| <= |Step(h, e).hub.deps|
    ensures var h' := Step(h, e).hub;
      if e.DeliverEvent? && Links(h.deps[d], e.job) && Step(h, e).reply == Accepted
      then
        && (exists s: Side :: h.deps[d].JobOf(s) == e.job && OpenRemoval(h, d, s) && FailedDeploy(h, d, s.Other()))
        && h'.deps[d] == h.deps[d].(lifecycle := if e.completed then RolledBack else RollbackFailed)
      else h'.deps[d] == h.deps[d]
  {
    assert RowOk(h.deps[d], d, h.jobs);
    hide Step, SagaInv, RowOk, FailedDeploy, OpenRemoval;
    if Step(h, e).reply != Accepted {
      RefusedHasNoEffect(h, e);
    } else if e.DeliverEvent? {
      ResultEndsRollback(h, e, d);
    } else {
      OtherStepsLeaveRollback(h, e, d);
    }
  }

  lemma RetryNeverRollsBack(h: Hub, dep: nat, permitted: bool, d: nat)
    requires (dep < |h.deps| ==> Linked(h, dep)) && d < |h.deps| && !h.deps[d].lifecycle.RollingBack?
    ensures |Retry(h, dep, permitted).hub.deps| == |h.deps|
    ensures !Retry(h, dep, permitted).hub.deps[d].lifecycle.RollingBack?
  {
  }

  lemma OtherStepsNeverStartRollback(h: Hub, e: Event, d: nat)
    requires forall d :: 0 <= d < |h.deps| ==> Linked(h, d)
    requires d < |h.deps| && !h.deps[d].lifecycle.RollingBack? && !e.DeliverEvent?
    ensures |h.deps| <= |Step(h, e).hub.deps| && !Step(h, e).hub.deps[d].lifecycle.RollingBack?
  {
    if e.RetryEvent? { RetryNeverRollsBack(h, e.dep, e.permitted, d); }
    hide Retry;
  }

  lemma SplitQueuesTheRemoval(h: Hub, h1: Hub, j: nat, status: Status, d: nat)
    requires SagaInv(h) && d < |h.deps| && h1.deps == h.deps && TurnsTerminal(h.jobs, h1.jobs, j, status)
    requires forall d :: 0 <= d < |h1.deps| ==> Linked(h1, d)
    requires Links(h.deps[d], j) && h.deps[d].lifecycle.Active? && Split(h1, d)
    ensures var h' := DeploymentEffect(h1, j, status);
      exists s: Side :: CompensatesSide(h.deps[d], d, s, |h.jobs|, h')
  {
    LinkedOnce(h, d, if h.deps[d].iranJob == j then Iran else Kharej);
    var s := if StatusOf(h1, d, Iran).Completed? then Iran else Kharej;
    assert CompensatesSide(h.deps[d], d, s, |h.jobs|, DeploymentEffect(h1, j, status));
  }

  /** In `h'` the new job `n` removes side `s` of row `d`, whose previous job had completed. */
  predicate CompensatesSide(was: Deployment, d: nat, s: Side, n: nat, h': Hub) {
    && d < |h'.deps| && |h'.jobs| == n + 1 && was.JobOf(s) < n
    && h'.jobs[was.JobOf(s)].status == Completed
    && h'.deps[d] == was.Relink(s, n).(lifecycle := RollingBack)
    && h'.jobs[n] == NewJob(was.NodeOf(s), Remove(d, s))
  }

  /** A row enters `rolling_back` only when a result of one of its own jobs splits the outcome,
      and that result queues exactly one job: the removal on the node whose deploy completed. */
  lemma CompensationIsQueuedOnce(h: Hub, e: Event, d: nat)
    requires SagaInv(h) && d < |h.deps| && !h.deps[d].lifecycle.RollingBack?
    requires forall d :: 0 <= d < |h.deps| ==> Linked(h, d)
    requires d < |Step(h, e).hub.deps| && Step(h, e).hub.deps[d].lifecycle.RollingBack?
    ensures e.DeliverEvent? && Links(h.deps[d], e.job) && e.job < |h.jobs| && Finishes(h, e, e.job)
    ensures exists s: Side :: CompensatesSide(h.deps[d], d, s, |h.jobs|, Step(h, e).hub)
  {
    if Step(h, e).reply != Accepted {
      RefusedHasNoEffect(h, e);
    } else if !e.DeliverEvent? {
      OtherStepsNeverStartRollback(h, e, d);
    } else {
      var h1, status := DeliveryStages(h, e);
      DeploymentEffectOnRow(h, h1, e.job, status, d);
      SplitQueuesTheRemoval(h, h1, e.job, status, d);
    }
  }

  // ---- a removed deployment is finished ----------------------------------------------------

  /** Both removals have completed. */
  predicate Removed(h: Hub, d: nat) {
    && Linked(h, d) && h.deps[d].lifecycle.Removing?
    && StatusOf(h, d, Iran).Completed? && StatusOf(h, d, Kharej).Completed?
  }

  lemma ResultLeavesRemoved(h: Hub, e: Event, d: nat)
    requires SagaInv(h) && Removed(h, d) && e.DeliverEvent?
    requires forall d :: 0 <= d < |h.deps| ==> Linked(h, d)
    ensures var h' := Step(h, e).hub; Removed(h', d) && h'.deps[d] == h.deps[d]
  {
    if Step(h, e).reply != Accepted {
      RefusedHasNoEffect(h, e);
    } else {
      var h1, status := DeliveryStages(h, e);
      UnlinkedRowStays(h1, e.job, status, d);
      hide Step, SagaInv;
    }
  }

  /** No handler touches a removed deployment, and neither a retry nor another removal of it is accepted. */
  lemma StepLeavesRemoved(h: Hub, e: Event, d: nat)
    requires SagaInv(h) && Removed(h, d)
    requires forall d :: 0 <= d < |h.deps| ==> Linked(h, d)
    ensures var h' := Step(h, e).hub; Removed(h', d) && h'.deps[d] == h.deps[d]
    ensures (e.RetryEvent? || e.RemoveEvent?) && e.dep == d ==> Step(h, e) == Outcome(h, Conflict)
  {
    if e.DeliverEvent? {
      ResultLeavesRemoved(h, e, d);
    } else {
      StepEvolves(h, e);
      OtherStepsLeaveRemoved(h, e, d);
    }
  }

  lemma OtherStepsLeaveRemoved(h: Hub, e: Event, d: nat)
    requires Removed(h, d) && !e.DeliverEvent?
    requires forall d :: 0 <= d < |h.deps| ==> Linked(h, d)
    ensures |h.deps| <= |Step(h, e).hub.deps| && Step(h, e).hub.deps[d] == h.deps[d]
    ensures (e.RetryEvent? || e.RemoveEvent?) && e.dep == d ==> Step(h, e) == Outcome(h, Conflict)
  {
    hide Claim, Renew, Requeue;
  }

  /** Once both removals have completed the row stays as it is for good. */
  lemma {:induction false} RemovedIsFinished(h: Hub, events: seq<Event>, d: nat)
    requires SagaInv(h) && Removed(h, d)
    ensures Removed(Run(h, events), d) && Run(h, events).deps[d] == h.deps[d]
  {
    if events != [] {
      var before := Run(h, events[..|events| - 1]);
      RemovedIsFinished(h, events[..|events| - 1], d);
      LinksResolve(before);
      StepLeavesRemoved(before, events[|events| - 1], d);
    }
  }

  /** Without permission nothing is created, retried or reconfigured. */
  lemma ForbiddenIsRefused(h: Hub, e: Event)
    requires forall d :: 0 <= d < |h.deps| ==> Linked(h, d)
    requires match e
             case CreateEvent(_, _, _, _, permitted) => !permitted
             case RetryEvent(_, permitted) => !permitted
             case ReconfigureEvent(_, permitted) => !permitted
             case _ => false
    ensures Step(h, e).hub == h && Step(h, e).reply in {Missing, Conflict}
  {
  }

  // ---- what is accepted --------------------------------------------------------------

  predicate NoNodeOf(row: Deployment, iran: nat, kharej: nat) { {row.iranNode, row.kharejNode} !! {iran, kharej} }

  /** A deployment is created exactly if it may be, on two nodes, and every other of its name was rolled back or has
      neither node. */
  lemma CreatedExactly(h: Hub, plugin: string, name: string, iran: nat, kharej: nat, permitted: bool)
    requires forall d :: 0 <= d < |h.deps| ==> Linked(h, d)
    ensures Step(h, CreateEvent(plugin, name, iran, kharej, permitted)).reply == Accepted <==>
      && permitted && iran != kharej
      && forall d :: 0 <= d < |h.deps| && h.deps[d].name == name ==>
           h.deps[d].lifecycle.RolledBack? || NoNodeOf(h.deps[d], iran, kharej)
  {
    forall d | 0 <= d < |h.deps| ensures SharesNode(h.deps[d], iran, kharej) <==> !NoNodeOf(h.deps[d], iran, kharej) {}
  }

  /** Both jobs of the row are over. */
  predicate JobsOver(h: Hub, d: nat)
    requires Linked(h, d)
  {
    StatusOf(h, d, Iran) in {Completed, Failed} && StatusOf(h, d, Kharej) in {Completed, Failed}
  }

  /** No row is stuck: once both its jobs are over a permitted retry is accepted unless the deployment is removed, and
      so is a removal unless one was asked for. A rollback needs no guard of its own, for one of its jobs is open. */
  lemma AnswersExactly(h: Hub, d: nat, permitted: bool)
    requires SagaInv(h) && Linked(h, d)
    requires forall d :: 0 <= d < |h.deps| ==> Linked(h, d)
    ensures Step(h, RetryEvent(d, permitted)).reply == Accepted <==> permitted && JobsOver(h, d) && !Removed(h, d)
    ensures Step(h, RemoveEvent(d)).reply == Accepted <==> JobsOver(h, d) && !h.deps[d].lifecycle.Removing?
  {
    assert RowOk(h.deps[d], d, h.jobs);
    hide Retry, QueueBoth, SagaInv;
    assert Step(h, RetryEvent(d, permitted)).reply == Accepted <==> Retriable(h, d, permitted) by {
      RetryReply(h, d, permitted);
    }
  }

  lemma RetryReply(h: Hub, d: nat, permitted: bool)
    requires Linked(h, d)
    ensures Retry(h, d, permitted).reply == Accepted <==> Retriable(h, d, permitted)
  {
  }

  /** A row that does not exist is not found. */
  lemma UnknownRowIsMissing(h: Hub, d: nat, permitted: bool)
    requires d >= |h.deps| && forall d :: 0 <= d < |h.deps| ==> Linked(h, d)
    ensures Step(h, RetryEvent(d, permitted)) == Outcome(h, Missing) && Step(h, RemoveEvent(d)) == Outcome(h, Missing)
  {
  }

  /** A reconfiguration asks nothing but that the row is active and the change permitted, and queues a deploy on either
      node whatever is under way there. */
  lemma ReconfiguredExactly(h: Hub, d: nat, permitted: bool)
    requires forall d :: 0 <= d < |h.deps| ==> Linked(h, d)
    ensures var next := Step(h, ReconfigureEvent(d, permitted));
      if d < |h.deps| && h.deps[d].lifecycle.Active? && permitted then
        && next.reply == Accepted
        && next.hub.jobs == h.jobs +
             [NewJob(h.deps[d].iranNode, Deploy(d, Iran)), NewJob(h.deps[d].kharejNode, Deploy(d, Kharej))]
        && next.hub.deps == h.deps[d := h.deps[d].(iranJob := |h.jobs|, kharejJob := |h.jobs| + 1)]
      else next == Outcome(h, Conflict)
  {
  }

  /** The row waits for two fresh removals, one on each node. */
  predicate RemovalQueued(h: Hub, h': Hub, d: nat)
    requires d < |h.deps|
  {
    && Linked(h', d) && h'.deps[d].lifecycle.Removing?
    && h'.jobs == h.jobs +
         [NewJob(h.deps[d].iranNode, Remove(d, Iran)), NewJob(h.deps[d].kharejNode, Remove(d, Kharej))]
    && h'.deps[d].iranJob == |h.jobs| && h'.deps[d].kharejJob == |h.jobs| + 1
    && h'.deps == h.deps[d := h'.deps[d]]
  }

  /** The tunnel of an active deployment is removed as a whole, whichever of its two ends is asked for. */
  lemma EitherEndRemovesBoth(h: Hub, d: nat, side: Side, plugin: string)
    requires forall d :: 0 <= d < |h.deps| ==> Linked(h, d)
    requires d < |h.deps| && h.deps[d].lifecycle.Active?
    requires forall e :: 0 <= e < |h.deps| && e != d && h.deps[e].name == h.deps[d].name ==>
      !h.deps[e].lifecycle.Active? || h.deps[d].NodeOf(side) !in {h.deps[e].iranNode, h.deps[e].kharejNode}
    ensures RemovalQueued(h, Step(h, RemoveTunnelEvent(h.deps[d].NodeOf(side), plugin, h.deps[d].name)).hub, d)
  {
    assert Manages(h.deps[d], h.deps[d].NodeOf(side), h.deps[d].name);
    assert FirstManaged(h.deps, h.deps[d].NodeOf(side), h.deps[d].name) == Some(d);
  }
}
