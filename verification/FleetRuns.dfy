/** An operation of fleet jobs from its creation on: what decides it, and what its final status says of the jobs. */
module FleetRuns {
  import opened Common
  import opened JobQueue
  import opened FleetItems
  import opened HubState
  import opened Saga
  import opened ExactlyOnce
  import opened Effects

  /** What the events make of a scheduled operation: the first of queueing and cancellation counts. */
  function Decision(events: seq<Event>, op: nat): Option<bool> {
    if events == [] then None
    else
      var earlier, last := Decision(events[..|events| - 1], op), events[|events| - 1];
      if earlier.Some? then earlier
      else if last == QueueFleetEvent(op) then Some(true)
      else if last == CancelFleetEvent(op) then Some(false)
      else None
  }

  predicate ItemOf(h: Hub, i: nat, op: nat) { i < |h.items| && h.items[i].op == op }

  /** Some item of the operation has a job of this status. */
  ghost predicate AnyJob(h: Hub, op: nat, status: Status) { exists i: nat :: ItemOf(h, i, op) && JobIs(h, i, status) }

  predicate JobIs(h: Hub, i: nat, status: Status)
    requires i < |h.items|
  {
    match h.items[i].job
    case None => false
    case Some(j) => j < |h.jobs| && h.jobs[j].status == status
  }

  /** Failed or completed once no job is open; failed if any job failed. */
  ghost predicate ToldByJobs(h: Hub, op: nat)
    requires op < |h.ops|
  {
    var open := AnyJob(h, op, Queued) || AnyJob(h, op, Running);
    && (h.ops[op].OpFailed? <==> !open && AnyJob(h, op, Failed))
    && (h.ops[op].OpCompleted? <==> !open && !AnyJob(h, op, Failed) && AnyJob(h, op, Completed))
    && (h.ops[op].OpRunning? <==> open || forall i :: 0 <= i < |h.items| ==> !ItemOf(h, i, op))
  }

  lemma StartedTellsJobs(h: Hub, op: nat)
    requires FleetOk(h) && op < |h.ops| && Started(h.ops[op])
    ensures ToldByJobs(h, op)
    ensures forall i: nat :: ItemOf(h, i, op) ==> h.items[i].job.Some?
  {
    assert OpOk(h, op);
    forall i: nat | ItemOf(h, i, op)
      ensures h.items[i].job.Some?
      ensures forall s :: JobIs(h, i, s) ==> h.items[i].status == ItemStatusOf(s)
      ensures exists s :: JobIs(h, i, s)
    {
      assert ItemOk(h, i);
      assert JobIs(h, i, h.jobs[h.items[i].job.value].status);
    }
    ItemsTellJobs(h, op);
  }

  /** The items of a started operation and their jobs, status by status. */
  lemma ItemsTellJobs(h: Hub, op: nat)
    requires forall i: nat :: ItemOf(h, i, op) ==> ItemOk(h, i) && h.items[i].job.Some?
    ensures AnyJob(h, op, Failed) <==> AnyItem(h.items, op, Broken)
    ensures AnyJob(h, op, Completed) <==> AnyItem(h.items, op, Done)
    ensures AnyJob(h, op, Queued) || AnyJob(h, op, Running) <==> !AllTerminal(h.items, op)
    ensures !AnyItem(h.items, op, Dropped)
  {
    forall i: nat | ItemOf(h, i, op) ensures JobIs(h, i, h.jobs[h.items[i].job.value].status) {}
  }

  // ---- what one transaction does to an operation ---------------------------------------

  /** Items keep their operation and node, and new ones belong to a new operation. */
  predicate ItemsStay(h: Hub, h': Hub) {
    && |h.items| <= |h'.items| && |h.ops| <= |h'.ops|
    && (forall i :: 0 <= i < |h.items| ==> h'.items[i].op == h.items[i].op && h'.items[i].node == h.items[i].node)
    && (forall i :: |h.items| <= i < |h'.items| ==> h'.items[i].op >= |h.ops|)
  }

  /** The status of an existing operation after a transaction. */
  predicate Decides(was: OpStatus, e: Event, op: nat, now: OpStatus) {
    if was.OpScheduled? && e == QueueFleetEvent(op) then Started(now)
    else if was.OpScheduled? && e == CancelFleetEvent(op) then now.OpCancelled?
    else if Started(was) then Started(now)
    else now == was
  }

  lemma FleetEffectDecides(h: Hub, e: Event, j: nat, status: Status)
    requires FleetOk(h) && e.DeliverEvent? && status.Terminal()
    ensures var h' := FleetEffect(h, j, status);
      ItemsStay(h, h') && forall op :: 0 <= op < |h.ops| ==> Decides(h.ops[op], e, op, h'.ops[op])
  {
    match FirstItem(h.items, j)
    case None =>
    case Some(i) =>
      assert ItemOk(h, i);
      StartedStaysStarted(h, FleetEffect(h, j, status).items, i);
      assert OpOk(h, h.items[i].op);
  }

  lemma DeliveryDecides(h: Hub, e: Event)
    requires SagaInv(h) && FleetOk(h) && e.DeliverEvent?
    requires forall d :: 0 <= d < |h.deps| ==> Linked(h, d)
    ensures ItemsStay(h, Step(h, e).hub)
    ensures forall op :: 0 <= op < |h.ops| ==> Decides(h.ops[op], e, op, Step(h, e).hub.ops[op])
  {
    if Step(h, e).reply == Accepted {
      var h1, status := DeliveryStages(h, e);
      assert Step(h, e).hub.items == FleetEffect(h, e.job, status).items;
      assert Step(h, e).hub.ops == FleetEffect(h, e.job, status).ops;
      hide SagaInv, Delivery, Step;
      FleetEffectDecides(h, e, e.job, status);
    } else {
      RefusedHasNoEffect(h, e);
    }
  }

  lemma QueueingDecides(h: Hub, op: nat)
    requires FleetOk(h)
    ensures ItemsStay(h, QueueFleet(h, op))
  {
    if op < |h.ops| && h.ops[op].OpScheduled? { QueueItemsGives(h, op, |h.items|); }
  }

  lemma StepDecides(h: Hub, e: Event)
    requires SagaInv(h) && FleetOk(h)
    requires forall d :: 0 <= d < |h.deps| ==> Linked(h, d)
    ensures ItemsStay(h, Step(h, e).hub)
    ensures forall op :: 0 <= op < |h.ops| ==> Decides(h.ops[op], e, op, Step(h, e).hub.ops[op])
  {
    if e.DeliverEvent? {
      DeliveryDecides(h, e);
    } else if e.QueueFleetEvent? {
      QueueingDecides(h, e.op);
    } else if !e.CreateFleetEvent? && !e.CancelFleetEvent? {
      OtherStepsLeaveFleet(h, e);
      hide Step;
    }
    hide SagaInv, FleetOk, QueueItems, Deliver;
  }

  lemma OtherStepsLeaveFleet(h: Hub, e: Event)
    requires forall d :: 0 <= d < |h.deps| ==> Linked(h, d)
    requires !e.DeliverEvent? && !e.QueueFleetEvent? && !e.CreateFleetEvent? && !e.CancelFleetEvent?
    ensures Step(h, e).hub.items == h.items && Step(h, e).hub.ops == h.ops
  {
  }

  // ---- runs ----------------------------------------------------------------------------

  /** From any point on at which the operation is scheduled. */
  lemma {:induction false} DecidedOnce(h: Hub, later: seq<Event>, op: nat)
    requires SagaInv(h) && FleetOk(h) && op < |h.ops| && h.ops[op].OpScheduled?
    ensures var now := Run(h, later);
      && ItemsStay(h, now)
      && match Decision(later, op)
         case None => now.ops[op].OpScheduled?
         case Some(queued) => if queued then Started(now.ops[op]) else now.ops[op].OpCancelled?
  {
    if later != [] {
      var rest, e := later[..|later| - 1], later[|later| - 1];
      var before := Run(h, rest);
      DecidedOnce(h, rest, op);
      FleetMirrorsJobs(h, rest);
      LinksResolve(before);
      StepDecides(before, e);
      assert Decides(before.ops[op], e, op, Step(before, e).hub.ops[op]);
    }
  }

  /** Item `first + k` of the operation is the one for `nodes[k]`, and there are no others. */
  predicate HasNodes(h: Hub, op: nat, first: nat, nodes: seq<nat>) {
    && first + |nodes| <= |h.items|
    && (forall k :: 0 <= k < |nodes| ==> h.items[first + k].op == op && h.items[first + k].node == nodes[k])
    && (forall i :: 0 <= i < |h.items| && h.items[i].op == op ==> first <= i < first + |nodes|)
  }

  /** Its items and jobs after a decision, or while there is none. */
  ghost predicate Stands(h: Hub, op: nat, decision: Option<bool>)
    requires op < |h.ops|
  {
    match decision
    case None =>
      && h.ops[op].OpScheduled?
      && forall i: nat :: ItemOf(h, i, op) ==> h.items[i].status.Scheduled? && h.items[i].job.None?
    case Some(queued) =>
      if queued then
        && ToldByJobs(h, op)
        && forall i: nat :: ItemOf(h, i, op) ==>
          && h.items[i].job.Some? && h.items[i].job.value < |h.jobs|
          && h.jobs[h.items[i].job.value].node == h.items[i].node
      else
        && h.ops[op].OpCancelled?
        && forall i: nat :: ItemOf(h, i, op) ==> h.items[i].status.Dropped? && h.items[i].job.None?
  }

  /** Over every run: an operation keeps one item for each of its nodes. Queueing gives each of them a job on its node,
      and from then on the jobs alone decide its status; cancelled before, it never has a job. */
  lemma FleetFromCreation(h: Hub, nodes: seq<nat>, later: seq<Event>)
    requires SagaInv(h) && FleetOk(h)
    requires forall d :: 0 <= d < |h.deps| ==> Linked(h, d)
    ensures SagaInv(Step(h, CreateFleetEvent(nodes)).hub)
    ensures var op, now := |h.ops|, Run(Step(h, CreateFleetEvent(nodes)).hub, later);
      op < |now.ops| && HasNodes(now, op, |h.items|, nodes) && Stands(now, op, Decision(later, op))
  {
    var e, op := CreateFleetEvent(nodes), |h.ops|;
    var h1 := Step(h, e).hub;
    StepKeeps(h, e);
    StepKeepsFleet(h, e);
    forall i | 0 <= i < |h.items| ensures h.items[i].op < op { assert ItemOk(h, i); }
    assert HasNodes(h1, op, |h.items|, nodes);
    var now := Run(h1, later);
    DecidedOnce(h1, later, op);
    FleetMirrorsJobs(h1, later);
    DecisionStands(now, op, Decision(later, op));
    hide SagaInv, FleetOk, Decision, Stands;
  }

  lemma DecisionStands(h: Hub, op: nat, decision: Option<bool>)
    requires FleetOk(h) && op < |h.ops|
    requires match decision
             case None => h.ops[op].OpScheduled?
             case Some(queued) => if queued then Started(h.ops[op]) else h.ops[op].OpCancelled?
    ensures Stands(h, op, decision)
  {
    if Started(h.ops[op]) { StartedTellsJobs(h, op); }
    hide ToldByJobs;
    forall i: nat | ItemOf(h, i, op) ensures ItemOk(h, i) {}
  }
}
