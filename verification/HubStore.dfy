/** The handlers as they run: statement by statement over the tables, each one transaction. */
module HubStore {
  import opened Common
  import opened JobQueue
  import opened FleetItems
  import opened HubState
  import opened Saga

  /** What a step leads to is valid; a handler then only has to arrive there. */
  lemma StepStays(h: Hub, e: Event) returns (next: Outcome)
    requires SagaInv(h) && forall d :: 0 <= d < |h.deps| ==> Linked(h, d)
    ensures next == Step(h, e)
    ensures SagaInv(next.hub) && forall d :: 0 <= d < |next.hub.deps| ==> Linked(next.hub, d)
  {
    next := Step(h, e);
    StepKeeps(h, e);
    LinksResolve(next.hub);
  }

  class Store {
    var jobs: seq<Job>
    var deps: seq<Deployment>
    var monitors: seq<Monitor>
    var checks: seq<Check>
    var items: seq<Item>
    var ops: seq<OpStatus>
    ghost var installed: set<Tunnel>

    ghost function View(): Hub
      reads this
    {
      Hub(jobs, deps, monitors, checks, items, ops, installed)
    }

    ghost predicate Valid()
      reads this
    {
      SagaInv(View()) && forall d :: 0 <= d < |deps| ==> Linked(View(), d)
    }

    constructor (monitors: seq<Monitor>)
      ensures Valid() && View() == Hub([], [], monitors, [], [], [], {})
    {
      this.monitors := monitors;
      jobs, deps, checks, items, ops, installed := [], [], [], [], [], {};
    }

    /** agent_jobs */
    method ClaimJob(node: nat, now: int) returns (job: Option<nat>)
      requires Valid()
      modifies this`jobs
      ensures Valid()
      ensures job == FirstQueued(old(jobs), node)
      ensures View() == Step(old(View()), ClaimEvent(node, now)).hub
    {
      ghost var next := StepStays(View(), ClaimEvent(node, now));
      job := None;
      var j := 0;
      while j < |jobs|
        invariant j <= |jobs| && job == None
        invariant FirstQueued(jobs, node) == FirstQueued(jobs, node, j)
      {
        if jobs[j].node == node && jobs[j].status == Queued {
          job := Some(j);
          break;
        }
        j := j + 1;
      }
      if job.Some? {
        jobs := jobs[job.value := jobs[job.value].(status := Running, startedAt := Some(now))];
      }
      assert View() == next.hub;
    }

    /** renew_agent_job_lease: one guarded UPDATE; no row changed is a conflict. */
    method RenewLease(job: nat, node: nat, now: int) returns (reply: Reply)
      requires Valid()
      modifies this`jobs
      ensures Valid()
      ensures Outcome(View(), reply) == Step(old(View()), RenewEvent(job, node, now))
    {
      ghost var next := StepStays(View(), RenewEvent(job, node, now));
      reply := Conflict;
      if job < |jobs| && jobs[job].node == node && jobs[job].status == Running {
        jobs := jobs[job := jobs[job].(startedAt := Some(now))];
        reply := Accepted;
      }
      assert View() == next.hub;
    }

    /** The requeue of run_maintenance_cycle. */
    method RequeueExpired(now: int)
      requires Valid()
      modifies this`jobs
      ensures Valid()
      ensures View() == Step(old(View()), CycleEvent(now)).hub
    {
      ghost var next := StepStays(View(), CycleEvent(now));
      ghost var was := jobs;
      var j := 0;
      while j < |jobs|
        invariant j <= |jobs| == |was|
        invariant forall k :: 0 <= k < j ==> jobs[k] == Requeued(was[k], now)
        invariant forall k :: j <= k < |jobs| ==> jobs[k] == was[k]
      {
        if jobs[j].status == Running && jobs[j].startedAt.Some? && jobs[j].startedAt.value < now - 5 * 60 {
          jobs := jobs[j := jobs[j].(status := Queued, startedAt := None)];
        }
        j := j + 1;
      }
      assert jobs == Requeue(was, now);
      assert View() == next.hub;
    }

    method InsertJob(node: nat, kind: Kind) returns (id: nat)
      modifies this`jobs
      ensures id == |old(jobs)| && View() == Insert(old(View()), node, kind)
    {
      id := |jobs|;
      jobs := jobs + [Job(node, kind, Queued, "", None)];
    }

    /** deploy_managed_mutation */
    method DeployManaged(plugin: string, name: string, iran: nat, kharej: nat, permitted: bool) returns (reply: Reply)
      requires Valid()
      modifies this
      ensures Valid()
      ensures Outcome(View(), reply) == Step(old(View()), CreateEvent(plugin, name, iran, kharej, permitted))
    {
      ghost var was := View();
      ghost var next := StepStays(was, CreateEvent(plugin, name, iran, kharej, permitted));
      assert next == Create(was, plugin, name, iran, kharej, permitted);
      hide SagaInv, Linked, Step;
      var active := false;
      var d := 0;
      while d < |deps|
        invariant d <= |deps| && View() == was
        invariant active <==>
          exists k :: 0 <= k < d && deps[k].name == name && SharesNode(deps[k], iran, kharej) && Live(deps[k].lifecycle)
      {
        if deps[d].name == name && SharesNode(deps[d], iran, kharej) && deps[d].lifecycle != RolledBack {
          active := true;
        }
        d := d + 1;
      }
      if !permitted || iran == kharej || active {
        reply := Conflict;
      } else {
        var iranJob := InsertJob(iran, Deploy(|deps|, Iran));
        var kharejJob := InsertJob(kharej, Deploy(|deps|, Kharej));
        deps := deps + [Deployment(plugin, name, iran, kharej, iranJob, kharejJob, Active)];
        reply := Accepted;
      }
      assert View() == next.hub;
    }

    /** Insert a job for one side and relink the row: the two statements every saga handler repeats. */
    method QueueSide(d: nat, side: Side, kind: Kind)
      requires d < |deps|
      modifies this`jobs, this`deps
      ensures View() == Queue(old(View()), d, side, kind)
    {
      var id := InsertJob(if side.Iran? then deps[d].iranNode else deps[d].kharejNode, kind);
      if side.Iran? {
        deps := deps[d := deps[d].(iranJob := id)];
      } else {
        deps := deps[d := deps[d].(kharejJob := id)];
      }
    }

    /** retry_managed_mutation */
    method RetryManaged(d: nat, permitted: bool) returns (reply: Reply)
      requires Valid()
      modifies this
      ensures Valid()
      ensures Outcome(View(), reply) == Step(old(View()), RetryEvent(d, permitted))
    {
      ghost var was := View();
      ghost var next := StepStays(was, RetryEvent(d, permitted));
      assert next == Retry(was, d, permitted);
      hide SagaInv, Step;
      if d >= |deps| {
        return Missing;
      }
      assert Linked(was, d);
      var row := deps[d];
      var iranStatus, kharejStatus := jobs[row.iranJob].status, jobs[row.kharejJob].status;
      if row.lifecycle == Removing && iranStatus == Completed && kharejStatus == Completed {
        return Conflict;
      }
      if row.lifecycle == RollingBack {
        return Conflict;
      }
      if iranStatus in {Queued, Running} || kharejStatus in {Queued, Running} || !permitted {
        return Conflict;
      }
      assert Retriable(was, d, permitted);
      hide Retriable, Queue;
      var wasRolledBack := row.lifecycle == RolledBack;
      deps := deps[d := row.(lifecycle := Active)];
      ghost var h0 := View();
      var sides := [(Iran, iranStatus), (Kharej, kharejStatus)];
      var i := 0;
      while i < |sides|
        invariant i <= 2 && |deps| == |was.deps|
        invariant View() == if i == 0 then h0
                  else if i == 1 then RetrySide(h0, d, Iran, iranStatus, wasRolledBack)
                  else RetrySide(RetrySide(h0, d, Iran, iranStatus, wasRolledBack), d, Kharej, kharejStatus,
                    wasRolledBack)
      {
        var (side, status) := sides[i];
        if !(status == Completed && !wasRolledBack) {
          QueueSide(d, side, Deploy(d, side));
        }
        i := i + 1;
      }
      reply := Accepted;
      assert View() == next.hub;
    }

    method QueueBothSides(d: nat, remove: bool)
      requires d < |deps|
      modifies this`jobs, this`deps
      ensures View() == QueueBoth(old(View()), d, remove)
    {
      QueueSide(d, Iran, if remove then Remove(d, Iran) else Deploy(d, Iran));
      QueueSide(d, Kharej, if remove then Remove(d, Kharej) else Deploy(d, Kharej));
    }

    /** remove_managed_mutation */
    method RemoveManaged(d: nat) returns (reply: Reply)
      requires Valid()
      modifies this
      ensures Valid()
      ensures Outcome(View(), reply) == Step(old(View()), RemoveEvent(d))
    {
      ghost var next := StepStays(View(), RemoveEvent(d));
      if d >= |deps| {
        return Missing;
      }
      assert Linked(View(), d);
      if deps[d].lifecycle == Removing {
        return Conflict;
      }
      if jobs[deps[d].iranJob].status in {Queued, Running} || jobs[deps[d].kharejJob].status in {Queued, Running} {
        return Conflict;
      }
      QueueBothSides(d, true);
      deps := deps[d := deps[d].(lifecycle := Removing)];
      reply := Accepted;
      assert View() == next.hub;
    }

    /** The managed branch of reconfigure_tunnel_mutation. */
    method ReconfigureTunnel(d: nat, permitted: bool) returns (reply: Reply)
      requires Valid()
      modifies this
      ensures Valid()
      ensures Outcome(View(), reply) == Step(old(View()), ReconfigureEvent(d, permitted))
    {
      ghost var next := StepStays(View(), ReconfigureEvent(d, permitted));
      reply := Conflict;
      if d < |deps| && deps[d].lifecycle == Active && permitted {
        QueueBothSides(d, false);
        reply := Accepted;
      }
      assert View() == next.hub;
    }

    method FindManaged(node: nat, name: string) returns (dep: Option<nat>)
      ensures dep == FirstManaged(deps, node, name)
    {
      dep := None;
      var d := 0;
      while d < |deps|
        invariant d <= |deps| && FirstManaged(deps, node, name) == FirstManaged(deps, node, name, d)
      {
        if deps[d].name == name && deps[d].lifecycle == Active &&
          (deps[d].iranNode == node || deps[d].kharejNode == node) {
          return Some(d);
        }
        d := d + 1;
      }
    }

    /** remove_tunnel_mutation */
    method RemoveTunnelOf(node: nat, plugin: string, name: string) returns (reply: Reply)
      requires Valid()
      modifies this
      ensures Valid()
      ensures Outcome(View(), reply) == Step(old(View()), RemoveTunnelEvent(node, plugin, name))
    {
      ghost var next := StepStays(View(), RemoveTunnelEvent(node, plugin, name));
      assert next == RemoveTunnel(View(), node, plugin, name);
      hide SagaInv, Linked, Step, QueueBoth;
      var managed := FindManaged(node, name);
      if managed.Some? {
        QueueBothSides(managed.value, true);
        deps := deps[managed.value := deps[managed.value].(lifecycle := Removing)];
      } else {
        var job := InsertJob(node, Uninstall(plugin, name));
      }
      reply := Accepted;
      assert View() == next.hub;
    }

    /** One due operation of queue_due_fleet_operations. */
    method QueueDueFleet(op: nat)
      requires Valid()
      modifies this
      ensures Valid()
      ensures View() == Step(old(View()), QueueFleetEvent(op)).hub
    {
      ghost var next := StepStays(View(), QueueFleetEvent(op));
      assert next.hub == QueueFleet(View(), op);
      hide SagaInv, Linked, Step;
      if op < |ops| && ops[op] == OpScheduled {
        ghost var was := View();
        var i := 0;
        while i < |items|
          invariant i <= |items| == |was.items|
          invariant View() == QueueItems(was, op, i)
        {
          if items[i].op == op && items[i].job == None {
            var job := InsertJob(items[i].node, Misc);
            items := items[i := items[i].(job := Some(job), status := ItemQueued)];
          }
          i := i + 1;
        }
        ops := ops[op := OpRunning];
      }
      assert View() == next.hub;
    }

    method FindItem(job: nat) returns (item: Option<nat>)
      ensures item == FirstItem(items, job)
    {
      item := None;
      var i := 0;
      while i < |items|
        invariant i <= |items| && FirstItem(items, job) == FirstItem(items, job, i)
      {
        if items[i].job == Some(job) {
          return Some(i);
        }
        i := i + 1;
      }
    }

    method FindDeployment(job: nat) returns (dep: Option<nat>)
      ensures dep == FirstLinked(deps, job)
    {
      dep := None;
      var d := 0;
      while d < |deps|
        invariant d <= |deps| && FirstLinked(deps, job) == FirstLinked(deps, job, d)
      {
        if deps[d].iranJob == job || deps[d].kharejJob == job {
          return Some(d);
        }
        d := d + 1;
      }
    }

    /** The deployment part of agent_job_result: compensate a split outcome, close a rollback. */
    method SettleDeployment(job: nat, status: Status)
      requires forall d :: 0 <= d < |deps| ==> Linked(View(), d)
      modifies this`jobs, this`deps
      ensures View() == DeploymentEffect(old(View()), job, status)
    {
      var found := FindDeployment(job);
      if found.Some? {
        var d := found.value;
        assert Linked(View(), d);
        var iranStatus, kharejStatus := jobs[deps[d].iranJob].status, jobs[deps[d].kharejJob].status;
        if deps[d].lifecycle == Active && {iranStatus, kharejStatus} == {Completed, Failed} {
          var side := if iranStatus == Completed then Iran else Kharej;
          QueueSide(d, side, Remove(d, side));
          deps := deps[d := deps[d].(lifecycle := RollingBack)];
        } else if deps[d].lifecycle == RollingBack && status == Completed {
          deps := deps[d := deps[d].(lifecycle := RolledBack)];
        } else if deps[d].lifecycle == RollingBack && status == Failed {
          deps := deps[d := deps[d].(lifecycle := RollbackFailed)];
        }
      }
    }

    /** The monitor part of agent_job_result: the streak, the monitor row and one result row. */
    method RecordCheck(monitor: nat, node: nat, up: bool, job: nat)
      modifies this`monitors, this`checks
      ensures View() == MonitorEffect(old(View()), monitor, node, up, job)
    {
      if monitor < |monitors| && monitors[monitor].node == node {
        var failureStreak := if up then 0 else monitors[monitor].streak + 1;
        monitors := monitors[monitor := Monitor(node, failureStreak, Some(up))];
        checks := checks + [Check(monitor, up, job)];
      }
    }

    /** The fleet part of agent_job_result. */
    method RecordFleetItem(job: nat, status: Status)
      modifies this`items, this`ops
      ensures View() == FleetEffect(old(View()), job, status)
    {
      var found := FindItem(job);
      if found.Some? {
        var i := found.value;
        items := items[i := items[i].(status := ItemStatusOf(status))];
        var op := items[i].op;
        if op < |ops| {
          var finalized := Finalize(items, op, ops[op]);
          ops := ops[op := finalized];
        }
      }
    }

    /** What agent_job_result writes once it accepts a result. */
    method ApplyResult(job: nat, status: Status, output: string, reportUp: bool, ghost left: bool)
      requires job < |jobs| && forall d :: 0 <= d < |deps| ==> Linked(View(), d)
      modifies this
      ensures View() == DeliverEffects(old(View()), job, status, output, reportUp, left)
    {
      hide DeploymentEffect, MonitorEffect, FleetEffect, InstalledAfter;
      ghost var was := View();
      var row := jobs[job];
      jobs := jobs[job := row.(status := status, output := output)];
      installed := InstalledAfter(deps, installed, row, status, left);
      assert View() == Record(was, job, status, output, left);
      if row.kind.MonitorRun? {
        RecordCheck(row.kind.monitor, row.node, status == Completed && reportUp, job);
      }
      RecordFleetItem(job, status);
      assert View() == BeforeDeploymentEffect(was, job, status, output, reportUp, left);
      assert forall d :: 0 <= d < |was.deps| ==> Linked(was, d) ==> Linked(View(), d);
      SettleDeployment(job, status);
    }

    /** agent_job_result */
    method DeliverResult(job: nat, node: nat, completed: bool, output: string, reportUp: bool, ghost left: bool)
      returns (reply: Reply)
      requires Valid()
      modifies this
      ensures Valid()
      ensures Outcome(View(), reply) == Step(old(View()), DeliverEvent(job, node, completed, output, reportUp, left))
    {
      ghost var next := StepStays(View(), DeliverEvent(job, node, completed, output, reportUp, left));
      hide DeliverEffects;
      if job >= |jobs| || jobs[job].node != node {
        return Missing;
      }
      var row := jobs[job];
      var status := if completed then Completed else Failed;
      if row.status in {Completed, Failed} {
        return if row.status == status && row.output == output then Repeated else Conflict;
      }
      if row.status != Running {
        return Conflict;
      }
      ApplyResult(job, status, output, reportUp, left);
      reply := Accepted;
      assert View() == next.hub;
    }
  }
}
