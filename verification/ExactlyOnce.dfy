/** Exactly-once effects although a job may be claimed and its result delivered many times. */
module ExactlyOnce {
  import opened JobQueue
  import opened HubState
  import opened Saga

  // ---- a job row over one step and over a run -----------------------------------

  /** What transactions may do to existing job rows. */
  predicate Evolved(jobs: seq<Job>, jobs': seq<Job>) {
    && |jobs| <= |jobs'|
    && forall k :: 0 <= k < |jobs| ==>
      && jobs'[k].kind == jobs[k].kind && jobs'[k].node == jobs[k].node
      && (jobs[k].status.Terminal() ==> jobs'[k] == jobs[k])
  }

  /** Rows added after the first `from` are queued. */
  predicate NewOnesQueued(jobs: seq<Job>, from: nat) {
    forall k :: from <= k < |jobs| ==> jobs[k].status == Queued
  }

  /** Rows are only appended, and the new ones are queued. */
  predicate Appended(jobs: seq<Job>, jobs': seq<Job>) {
    && |jobs| <= |jobs'| && NewOnesQueued(jobs', |jobs|)
    && forall k :: 0 <= k < |jobs| ==> jobs'[k] == jobs[k]
  }

  /** Only an accepted delivery of this very job makes it terminal. */
  predicate Finishes(h: Hub, e: Event, k: nat)
    requires k < |h.jobs|
  {
    e.DeliverEvent? && e.job == k && h.jobs[k].node == e.node && h.jobs[k].status == Running
  }

  predicate TerminalExactlyWhenFinished(h: Hub, e: Event, jobs': seq<Job>) {
    forall k :: 0 <= k < |h.jobs| && k < |jobs'| && !h.jobs[k].status.Terminal() ==>
      (jobs'[k].status.Terminal() <==> Finishes(h, e, k))
  }

  lemma {:induction false} QueueItemsAppends(h: Hub, op: nat, upTo: nat)
    requires upTo <= |h.items|
    ensures Appended(h.jobs, QueueItems(h, op, upTo).jobs)
  {
    if upTo > 0 { QueueItemsAppends(h, op, upTo - 1); }
  }

  lemma DeploymentEffectAppends(h: Hub, j: nat, status: Status)
    requires forall d :: 0 <= d < |h.deps| ==> Linked(h, d)
    ensures Appended(h.jobs, DeploymentEffect(h, j, status).jobs)
    ensures DeploymentEffect(h, j, status).(jobs := h.jobs, deps := h.deps) == h
  {
  }

  /** The stages of an accepted delivery: `h1` is the Hub before the deployment effect, `h2` the result. */
  predicate Delivery(h: Hub, j: nat, status: Status, up: bool, left: bool, h1: Hub, h2: Hub) {
    && TurnsTerminal(h.jobs, h1.jobs, j, status)
    && h1.deps == h.deps && h1.installed == InstalledAfter(h.deps, h.installed, h.jobs[j], status, left)
    && Appended(h1.jobs, h2.jobs)
    && h2.(jobs := h1.jobs, deps := h1.deps) == h1
    && (var job := h.jobs[j];
        var m :=
          if job.kind.MonitorRun? then MonitorEffect(h, job.kind.monitor, job.node, status.Completed? && up, j) else h;
        h1.monitors == m.monitors && h1.checks == m.checks)
    && (var f := FleetEffect(h, j, status); h1.items == f.items && h1.ops == f.ops)
  }

  /** The monitor and fleet updates do not look at each other's tables or at the job row. */
  lemma EffectsAreIndependent(h: Hub, j: nat, status: Status, output: string, up: bool, left: bool)
    requires j < |h.jobs|
    ensures var h1, job := BeforeDeploymentEffect(h, j, status, output, up, left), h.jobs[j];
      && h1.installed == InstalledAfter(h.deps, h.installed, job, status, left)
      && (var m :=
            if job.kind.MonitorRun? then MonitorEffect(h, job.kind.monitor, job.node, status.Completed? && up, j)
            else h;
          h1.monitors == m.monitors && h1.checks == m.checks)
      && (var f := FleetEffect(h, j, status); h1.items == f.items && h1.ops == f.ops)
  {
  }

  lemma DeliveryStages(h: Hub, e: Event) returns (h1: Hub, status: Status)
    requires SagaInv(h) && e.DeliverEvent?
    requires forall d :: 0 <= d < |h.deps| ==> Linked(h, d)
    requires Step(h, e).reply == Accepted
    ensures status == if e.completed then Completed else Failed
    ensures Finishes(h, e, e.job)
    ensures h1.jobs == h.jobs[e.job := h.jobs[e.job].(status := status, output := e.output)]
    ensures forall d :: 0 <= d < |h1.deps| ==> Linked(h1, d)
    ensures Step(h, e).hub == DeploymentEffect(h1, e.job, status)
    ensures Delivery(h, e.job, status, e.reportUp, e.left, h1, Step(h, e).hub)
  {
    hide SagaInv, DeploymentEffect, MonitorEffect, FleetEffect;
    status := if e.completed then Completed else Failed;
    h1 := BeforeDeploymentEffect(h, e.job, status, e.output, e.reportUp, e.left);
    assert forall d :: 0 <= d < |h.deps| ==> Linked(h, d) ==> Linked(h1, d);
    DeploymentEffectAppends(h1, e.job, status);
    EffectsAreIndependent(h, e.job, status, e.output, e.reportUp, e.left);
    assert Step(h, e).hub == DeploymentEffect(h1, e.job, status);
  }

  lemma RefusedHasNoEffect(h: Hub, e: Event)
    requires forall d :: 0 <= d < |h.deps| ==> Linked(h, d)
    requires Step(h, e).reply != Accepted
    ensures Step(h, e).hub == h
  {
  }

  lemma DeliverEvolves(h: Hub, e: Event)
    requires SagaInv(h) && e.DeliverEvent?
    requires forall d :: 0 <= d < |h.deps| ==> Linked(h, d)
    ensures var jobs' := Step(h, e).hub.jobs;
      Evolved(h.jobs, jobs') && NewOnesQueued(jobs', |h.jobs|) && TerminalExactlyWhenFinished(h, e, jobs')
  {
    if Step(h, e).reply == Accepted { var _, _ := DeliveryStages(h, e); } else { RefusedHasNoEffect(h, e); }
  }

  lemma QueueBothAppends(h: Hub, d: nat, remove: bool)
    requires d < |h.deps|
    ensures |QueueBoth(h, d, remove).deps| == |h.deps| && Appended(h.jobs, QueueBoth(h, d, remove).jobs)
  {
  }

  lemma RetryAppends(h: Hub, d: nat, permitted: bool)
    requires d < |h.deps| ==> Linked(h, d)
    ensures Appended(h.jobs, Retry(h, d, permitted).hub.jobs)
  {
  }

  /** Every other handler leaves the existing rows alone. */
  lemma OtherStepsAppend(h: Hub, e: Event)
    requires forall d :: 0 <= d < |h.deps| ==> Linked(h, d)
    requires !e.DeliverEvent? && !e.ClaimEvent? && !e.RenewEvent? && !e.CycleEvent?
    ensures Appended(h.jobs, Step(h, e).hub.jobs)
  {
    if e.RetryEvent? { RetryAppends(h, e.dep, e.permitted); }
    forall d, remove | 0 <= d < |h.deps|
      ensures |QueueBoth(h, d, remove).deps| == |h.deps| && Appended(h.jobs, QueueBoth(h, d, remove).jobs) {
      QueueBothAppends(h, d, remove);
    }
    hide Retry, QueueBoth;
    if e.QueueFleetEvent? { QueueItemsAppends(h, e.op, |h.items|); }
  }

  lemma StepEvolves(h: Hub, e: Event)
    requires SagaInv(h)
    requires forall d :: 0 <= d < |h.deps| ==> Linked(h, d)
    ensures var jobs' := Step(h, e).hub.jobs;
      Evolved(h.jobs, jobs') && NewOnesQueued(jobs', |h.jobs|) && TerminalExactlyWhenFinished(h, e, jobs')
  {
    if e.DeliverEvent? {
      DeliverEvolves(h, e);
    } else if !e.ClaimEvent? && !e.RenewEvent? && !e.CycleEvent? {
      OtherStepsAppend(h, e);
    }
  }

  /** A job's status and output never change once it is terminal. */
  lemma {:induction false} TerminalForever(h: Hub, events: seq<Event>)
    requires SagaInv(h)
    ensures Evolved(h.jobs, Run(h, events).jobs)
  {
    if events != [] {
      var before := Run(h, events[..|events| - 1]);
      TerminalForever(h, events[..|events| - 1]);
      LinksResolve(before);
      StepEvolves(before, events[|events| - 1]);
    }
  }

  /** A result is accepted exactly from the node that runs the job, and not found exactly for a job the node does not
      have; a finished job acknowledges the result it has. */
  lemma DeliveryIsAnswered(h: Hub, e: Event)
    requires e.DeliverEvent? && forall d :: 0 <= d < |h.deps| ==> Linked(h, d)
    ensures var mine, reply := e.job < |h.jobs| && h.jobs[e.job].node == e.node, Step(h, e).reply;
      && (reply == Accepted <==> mine && h.jobs[e.job].status == Running)
      && (reply == Missing <==> !mine)
      && (reply == Repeated <==>
            && mine && h.jobs[e.job].output == e.output
            && h.jobs[e.job].status == if e.completed then Completed else Failed)
  {
    hide DeliverEffects;
  }

  /** Delivering an accepted result again, however much later, changes nothing at all:
      the same status and output are acknowledged, anything else is refused. */
  lemma RedeliveryHasNoEffect(h: Hub, e: Event, later: seq<Event>, again: Event)
    requires SagaInv(h) && e.DeliverEvent? && again.DeliverEvent?
    requires forall d :: 0 <= d < |h.deps| ==> Linked(h, d)
    requires Step(h, e).reply == Accepted && again.job == e.job && again.node == e.node
    ensures SagaInv(Step(h, e).hub)
    ensures forall d :: 0 <= d < |Run(Step(h, e).hub, later).deps| ==> Linked(Run(Step(h, e).hub, later), d)
    ensures var now := Run(Step(h, e).hub, later);
      && Step(now, again).hub == now
      && Step(now, again).reply ==
        (if again.completed == e.completed && again.output == e.output then Repeated else Conflict)
  {
    StepKeeps(h, e);
    var h1, status := DeliveryStages(h, e);
    TerminalForever(Step(h, e).hub, later);
    LinksResolve(Run(Step(h, e).hub, later));
  }
}
