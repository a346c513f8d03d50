/** The Hub's tables and one function per handler: what a single transaction does.

    The result handler of the source reads the job and then writes it in the same
    transaction; here each handler is one atomic step. */
module HubState {
  import opened Common
  import opened JobQueue
  import opened FleetItems

  datatype Lifecycle = Active | Removing | RollingBack | RolledBack | RollbackFailed

  /** An Agent keeps tunnels by plugin and name, whichever deployment they come from. */
  datatype Tunnel = Tunnel(node: nat, plugin: string, name: string)

  datatype Deployment = Deployment(
    plugin: string, name: string, iranNode: nat, kharejNode: nat, iranJob: nat, kharejJob: nat, lifecycle: Lifecycle) {

    function JobOf(side: Side): nat { if side.Iran? then iranJob else kharejJob }

    function NodeOf(side: Side): nat { if side.Iran? then iranNode else kharejNode }

    function Place(side: Side): Tunnel { Tunnel(NodeOf(side), plugin, name) }

    function Relink(side: Side, job: nat): Deployment {
      if side.Iran? then this.(iranJob := job) else this.(kharejJob := job)
    }
  }

  datatype Monitor = Monitor(node: nat, streak: nat, up: Option<bool>)

  /** A row once written to `monitor_results`, whether or not the retention has deleted it since; `job` wrote it. */
  datatype Check = Check(monitor: nat, up: bool, job: nat)

  /** `installed` is not a table: it is what the jobs' work has left on the Agents. */
  datatype Hub = Hub(
    jobs: seq<Job>, deps: seq<Deployment>, monitors: seq<Monitor>, checks: seq<Check>,
    items: seq<Item>, ops: seq<OpStatus>, installed: set<Tunnel>)

  datatype Reply = Accepted | Repeated | Missing | Conflict

  datatype Outcome = Outcome(hub: Hub, reply: Reply)

  function Insert(h: Hub, node: nat, kind: Kind): Hub {
    h.(jobs := h.jobs + [NewJob(node, kind)])
  }

  // ---- deployments ------------------------------------------------------------

  predicate Live(lifecycle: Lifecycle) { !lifecycle.RolledBack? }

  predicate SharesNode(row: Deployment, iran: nat, kharej: nat) {
    row.iranNode == iran || row.iranNode == kharej || row.kharejNode == iran || row.kharejNode == kharej
  }

  predicate NameTaken(deps: seq<Deployment>, name: string, iran: nat, kharej: nat) {
    exists d :: 0 <= d < |deps| && deps[d].name == name && SharesNode(deps[d], iran, kharej) && Live(deps[d].lifecycle)
  }

  /** `permitted` stands for the checks on other tables: nodes online, certificate, settings. The name must be free
      whatever the plugin. */
  function Create(h: Hub, plugin: string, name: string, iran: nat, kharej: nat, permitted: bool): Outcome {
    if !permitted || iran == kharej || NameTaken(h.deps, name, iran, kharej) then Outcome(h, Conflict)
    else
      var d := |h.deps|;
      var h1 := Insert(Insert(h, iran, Deploy(d, Iran)), kharej, Deploy(d, Kharej));
      var row := Deployment(plugin, name, iran, kharej, |h.jobs|, |h.jobs| + 1, Active);
      Outcome(h1.(deps := h.deps + [row]), Accepted)
  }

  /** Insert a job for one side of a row and make it the row's job for that side. */
  function Queue(h: Hub, d: nat, side: Side, kind: Kind): Hub
    requires d < |h.deps|
  {
    Insert(h, h.deps[d].NodeOf(side), kind).(deps := h.deps[d := h.deps[d].Relink(side, |h.jobs|)])
  }

  function SetLifecycle(h: Hub, d: nat, lifecycle: Lifecycle): Hub
    requires d < |h.deps|
  {
    h.(deps := h.deps[d := h.deps[d].(lifecycle := lifecycle)])
  }

  predicate Linked(h: Hub, d: nat) {
    d < |h.deps| && h.deps[d].iranJob < |h.jobs| && h.deps[d].kharejJob < |h.jobs|
  }

  function StatusOf(h: Hub, d: nat, side: Side): Status
    requires Linked(h, d)
  {
    h.jobs[h.deps[d].JobOf(side)].status
  }

  predicate Settled(h: Hub, d: nat)
    requires Linked(h, d)
  {
    StatusOf(h, d, Iran).Terminal() && StatusOf(h, d, Kharej).Terminal()
  }

  predicate Retriable(h: Hub, d: nat, permitted: bool)
    requires Linked(h, d)
  {
    var row := h.deps[d];
    && !(row.lifecycle.Removing? && StatusOf(h, d, Iran).Completed? && StatusOf(h, d, Kharej).Completed?)
    && !row.lifecycle.RollingBack?
    && Settled(h, d)
    && permitted
  }

  /** One turn of the loop over the two sides; `was` is the side's status before the retry. */
  function RetrySide(h: Hub, d: nat, side: Side, was: Status, wasRolledBack: bool): Hub
    requires d < |h.deps|
  {
    if was.Completed? && !wasRolledBack then h else Queue(h, d, side, Deploy(d, side))
  }

  function Retry(h: Hub, d: nat, permitted: bool): Outcome
    requires d < |h.deps| ==> Linked(h, d)
  {
    if d >= |h.deps| then Outcome(h, Missing)
    else if !Retriable(h, d, permitted) then Outcome(h, Conflict)
    else
      var rolled := h.deps[d].lifecycle.RolledBack?;
      var h1 := RetrySide(SetLifecycle(h, d, Active), d, Iran, StatusOf(h, d, Iran), rolled);
      Outcome(RetrySide(h1, d, Kharej, StatusOf(h, d, Kharej), rolled), Accepted)
  }

  function QueueBoth(h: Hub, d: nat, remove: bool): Hub
    requires d < |h.deps|
  {
    var h1 := Queue(h, d, Iran, if remove then Remove(d, Iran) else Deploy(d, Iran));
    Queue(h1, d, Kharej, if remove then Remove(d, Kharej) else Deploy(d, Kharej))
  }

  /** remove_managed_mutation */
  function RemoveDeployment(h: Hub, d: nat): Outcome
    requires d < |h.deps| ==> Linked(h, d)
  {
    if d >= |h.deps| then Outcome(h, Missing)
    else if h.deps[d].lifecycle.Removing? || !Settled(h, d) then Outcome(h, Conflict)
    else Outcome(SetLifecycle(QueueBoth(h, d, true), d, Removing), Accepted)
  }

  /** reconfigure_tunnel_mutation on an active managed row; it does not wait for running jobs. */
  function Reconfigure(h: Hub, d: nat, permitted: bool): Outcome {
    if d < |h.deps| && h.deps[d].lifecycle.Active? && permitted then Outcome(QueueBoth(h, d, false), Accepted)
    else Outcome(h, Conflict)
  }

  predicate Manages(row: Deployment, node: nat, name: string) {
    row.name == name && row.lifecycle.Active? && (row.iranNode == node || row.kharejNode == node)
  }

  function FirstManaged(deps: seq<Deployment>, node: nat, name: string, from: nat := 0): (r: Option<nat>)
    requires from <= |deps|
    ensures r.Some? ==> from <= r.value < |deps| && Manages(deps[r.value], node, name)
    ensures r.None? ==> forall d :: from <= d < |deps| ==> !Manages(deps[d], node, name)
    decreases |deps| - from
  {
    if from == |deps| then None
    else if Manages(deps[from], node, name) then Some(from)
    else FirstManaged(deps, node, name, from + 1)
  }

  /** remove_tunnel_mutation: on an active managed row it does not wait for running jobs; without one it queues a single
      removal on the tunnel's node that no row links. `plugin` is what the tunnel's service is taken for. */
  function RemoveTunnel(h: Hub, node: nat, plugin: string, name: string): Outcome {
    match FirstManaged(h.deps, node, name)
    case Some(d) => Outcome(SetLifecycle(QueueBoth(h, d, true), d, Removing), Accepted)
    case None => Outcome(Insert(h, node, Uninstall(plugin, name)), Accepted)
  }

  // ---- job-driven fleet operations ---------------------------------------------

  function CreateFleet(h: Hub, nodes: seq<nat>): Hub {
    var op := |h.ops|;
    h.(ops := h.ops + [OpScheduled],
       items := h.items + seq(|nodes|, i requires 0 <= i < |nodes| => Item(op, nodes[i], None, Scheduled)))
  }

  function QueueItem(h: Hub, op: nat, i: nat): Hub
    requires i < |h.items|
  {
    if h.items[i].op != op || h.items[i].job.Some? then h
    else
      Insert(h, h.items[i].node, Misc).(items := h.items[i := h.items[i].(job := Some(|h.jobs|), status := ItemQueued)])
  }

  function QueueItems(h: Hub, op: nat, upTo: nat): (r: Hub)
    requires upTo <= |h.items|
    ensures |r.items| == |h.items| && r.ops == h.ops && r.deps == h.deps && |h.jobs| <= |r.jobs|
  {
    if upTo == 0 then h else QueueItem(QueueItems(h, op, upTo - 1), op, upTo - 1)
  }

  /** One operation of queue_due_fleet_operations. */
  function QueueFleet(h: Hub, op: nat): Hub {
    if op < |h.ops| && h.ops[op].OpScheduled? then
      QueueItems(h, op, |h.items|).(ops := h.ops[op := OpRunning])
    else h
  }

  /** cancel_fleet_operation_mutation on a scheduled operation. */
  function CancelFleet(h: Hub, op: nat): Hub {
    if op < |h.ops| && h.ops[op].OpScheduled? then
      h.(ops := h.ops[op := OpCancelled], items := DropScheduled(h.items, op))
    else h
  }

  // ---- delivery of a job result -------------------------------------------------

  function MonitorEffect(h: Hub, m: nat, node: nat, up: bool, j: nat): (r: Hub)
    ensures r.(monitors := h.monitors, checks := h.checks) == h
  {
    if m < |h.monitors| && h.monitors[m].node == node then
      var streak := if up then 0 else h.monitors[m].streak + 1;
      h.(monitors := h.monitors[m := Monitor(node, streak, Some(up))], checks := h.checks + [Check(m, up, j)])
    else h
  }

  function FirstItem(items: seq<Item>, j: nat, from: nat := 0): (r: Option<nat>)
    requires from <= |items|
    ensures r.Some? ==> from <= r.value < |items| && items[r.value].job == Some(j)
    ensures r.None? ==> forall i :: from <= i < |items| ==> items[i].job != Some(j)
    decreases |items| - from
  {
    if from == |items| then None
    else if items[from].job == Some(j) then Some(from)
    else FirstItem(items, j, from + 1)
  }

  function ItemStatusOf(status: Status): ItemStatus {
    match status case Completed => Done case Failed => Broken case _ => ItemQueued
  }

  function FleetEffect(h: Hub, j: nat, status: Status): (r: Hub)
    ensures r.(items := h.items, ops := h.ops) == h
  {
    match FirstItem(h.items, j)
    case None => h
    case Some(i) =>
      var op := h.items[i].op;
      var h1 := h.(items := h.items[i := h.items[i].(status := ItemStatusOf(status))]);
      if op < |h.ops| then h1.(ops := h.ops[op := Finalized(h1.items, op, h.ops[op])]) else h1
  }

  predicate Links(row: Deployment, j: nat) { row.iranJob == j || row.kharejJob == j }

  function FirstLinked(deps: seq<Deployment>, j: nat, from: nat := 0): (r: Option<nat>)
    requires from <= |deps|
    ensures r.Some? ==> from <= r.value < |deps| && Links(deps[r.value], j)
    ensures r.None? ==> forall d :: from <= d < |deps| ==> !Links(deps[d], j)
    decreases |deps| - from
  {
    if from == |deps| then None
    else if Links(deps[from], j) then Some(from)
    else FirstLinked(deps, j, from + 1)
  }

  predicate Split(h: Hub, d: nat)
    requires Linked(h, d)
  {
    {StatusOf(h, d, Iran), StatusOf(h, d, Kharej)} == {Completed, Failed}
  }

  function DeploymentEffect(h: Hub, j: nat, status: Status): Hub
    requires forall d :: 0 <= d < |h.deps| ==> Linked(h, d)
  {
    match FirstLinked(h.deps, j)
    case None => h
    case Some(d) =>
      var lifecycle := h.deps[d].lifecycle;
      if lifecycle.Active? && Split(h, d) then
        var side := if StatusOf(h, d, Iran).Completed? then Iran else Kharej;
        SetLifecycle(Queue(h, d, side, Remove(d, side)), d, RollingBack)
      else if lifecycle.RollingBack? && status.Completed? then SetLifecycle(h, d, RolledBack)
      else if lifecycle.RollingBack? && status.Failed? then SetLifecycle(h, d, RollbackFailed)
      else h
  }

  /** The tunnel that a job's payload names; rows are never renamed. */
  function Target(deps: seq<Deployment>, job: Job): Option<Tunnel> {
    match job.kind
    case Deploy(d, _) => if d < |deps| then Some(Tunnel(job.node, deps[d].plugin, deps[d].name)) else None
    case Remove(d, _) => if d < |deps| then Some(Tunnel(job.node, deps[d].plugin, deps[d].name)) else None
    case Uninstall(plugin, name) => Some(Tunnel(job.node, plugin, name))
    case _ => None
  }

  /** What is installed after the job: a removal takes whatever bears that name on the node. A job that failed may have
      left the tunnel there or not (`left`): Realm puts an old one back, Backhaul deletes it, and both may have failed
      after their work was done. A failed removal leaves at most what was there. */
  function InstalledAfter(deps: seq<Deployment>, installed: set<Tunnel>, job: Job, status: Status,
                          left: bool): set<Tunnel> {
    match Target(deps, job)
    case None => installed
    case Some(p) =>
      if job.kind.Deploy? then (if status.Completed? || left then installed + {p} else installed - {p})
      else if status.Completed? || !left then installed - {p} else installed
  }

  /** The row update of agent_job_result, before any of its effects. */
  function Record(h: Hub, j: nat, status: Status, output: string, left: bool): Hub
    requires j < |h.jobs|
  {
    h.(jobs := h.jobs[j := h.jobs[j].(status := status, output := output)],
       installed := InstalledAfter(h.deps, h.installed, h.jobs[j], status, left))
  }

  /** `reportUp`: the monitor report in the output parses and says "up". */
  function BeforeDeploymentEffect(h: Hub, j: nat, status: Status, output: string, reportUp: bool, left: bool): (r: Hub)
    requires j < |h.jobs|
    ensures r.deps == h.deps && r.jobs == Record(h, j, status, output, left).jobs
  {
    var job := h.jobs[j];
    var h1 := Record(h, j, status, output, left);
    var h2 :=
      if job.kind.MonitorRun? then MonitorEffect(h1, job.kind.monitor, job.node, status.Completed? && reportUp, j)
      else h1;
    FleetEffect(h2, j, status)
  }

  function DeliverEffects(h: Hub, j: nat, status: Status, output: string, reportUp: bool, left: bool): Hub
    requires j < |h.jobs|
    requires forall d :: 0 <= d < |h.deps| ==> Linked(h, d)
  {
    var h1 := BeforeDeploymentEffect(h, j, status, output, reportUp, left);
    assert forall d :: 0 <= d < |h.deps| ==> Linked(h, d) ==> Linked(h1, d);
    DeploymentEffect(h1, j, status)
  }

  function Deliver(h: Hub, j: nat, node: nat, completed: bool, output: string, reportUp: bool, left: bool): Outcome
    requires forall d :: 0 <= d < |h.deps| ==> Linked(h, d)
  {
    var status := if completed then Completed else Failed;
    if j >= |h.jobs| || h.jobs[j].node != node then Outcome(h, Missing)
    else if h.jobs[j].status.Terminal() then
      Outcome(h, if h.jobs[j].status == status && h.jobs[j].output == output then Repeated else Conflict)
    else if h.jobs[j].status != Running then Outcome(h, Conflict)
    else Outcome(DeliverEffects(h, j, status, output, reportUp, left), Accepted)
  }
}
