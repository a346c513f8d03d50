/** Building concrete runs from the empty Hub, one transaction after the other. */
module Traces {
  import opened Common
  import opened JobQueue
  import opened HubState
  import opened Saga
  import opened SagaTheorems

  function Taken(job: Job): Job { job.(status := Running, startedAt := Some(0)) }

  function Finished(job: Job, status: Status): Job { Taken(job).(status := status) }

  /** A Hub without monitors and fleet operations. */
  function Small(jobs: seq<Job>, deps: seq<Deployment>, installed: set<Tunnel>): Hub {
    Hub(jobs, deps, [], [], [], [], installed)
  }

  ghost predicate AllLinked(h: Hub) { forall d :: 0 <= d < |h.deps| ==> Linked(h, d) }

  ghost predicate Leads(h: Hub, e: Event, h': Hub) { AllLinked(h) ==> Step(h, e).hub == h' }

  lemma Extend(events: seq<Event>, h: Hub, e: Event, h': Hub)
    requires RunFrom([], events) == h && Leads(h, e, h')
    ensures RunFrom([], events + [e]) == h'
  {
    RunAppend(Empty([]), events, e);
  }

  function ClaimOf(node: nat): Event { ClaimEvent(node, 0) }

  function ResultOf(j: nat, node: nat, completed: bool, left: bool := false): Event {
    DeliverEvent(j, node, completed, "", false, left)
  }

  lemma ClaimLeads(h: Hub, j: nat, node: nat)
    requires j < |h.jobs| && Claimable(h.jobs[j], node) && forall i :: 0 <= i < j ==> !Claimable(h.jobs[i], node)
    ensures Leads(h, ClaimOf(node), h.(jobs := h.jobs[j := Taken(h.jobs[j])]))
  {
    assert FirstQueued(h.jobs, node) == Some(j);
  }

  ghost predicate Effected(h: Hub, j: nat, status: Status, h': Hub) {
    AllLinked(h) ==> DeploymentEffect(h, j, status) == h'
  }

  predicate Reporting(h: Hub, j: nat) {
    && j < |h.jobs| && h.jobs[j].status == Running && h.items == []
    && (h.jobs[j].kind.Deploy? || h.jobs[j].kind.Remove? || h.jobs[j].kind.Uninstall?)
  }

  lemma ResultLeads(h: Hub, j: nat, completed: bool, h': Hub, left: bool := false)
    requires Reporting(h, j)
    requires var status := if completed then Completed else Failed;
      Effected(Record(h, j, status, "", left), j, status, h')
    ensures Leads(h, ResultOf(j, h.jobs[j].node, completed, left), h')
  {
    var status := if completed then Completed else Failed;
    assert BeforeDeploymentEffect(h, j, status, "", false, left) == Record(h, j, status, "", left);
    assert forall d :: 0 <= d < |h.deps| ==> Linked(h, d) ==> Linked(Record(h, j, status, "", left), d);
  }

  /** The result of a job when the row that links it, if there is one, stays as it is. */
  lemma QuietResult(h: Hub, j: nat, completed: bool, h': Hub, left: bool := false)
    requires Reporting(h, j) && h' == Record(h, j, if completed then Completed else Failed, "", left)
    requires var linked := FirstLinked(h.deps, j);
      linked.Some? ==>
        var row := h.deps[linked.value];
        && Linked(h, linked.value) && !row.lifecycle.RollingBack?
        && (row.lifecycle.Active? ==>
          {h'.jobs[row.iranJob].status, h'.jobs[row.kharejJob].status} != {Completed, Failed})
    ensures Leads(h, ResultOf(j, h.jobs[j].node, completed, left), h')
  {
    ResultLeads(h, j, completed, h', left);
  }

  /** Five minutes later a cycle puts the one job that is still running back into the queue. */
  lemma CycleLeads(h: Hub, j: nat)
    requires j < |h.jobs| && h.jobs[j].status == Running && h.jobs[j].startedAt == Some(0)
    requires forall i :: 0 <= i < |h.jobs| && i != j ==> h.jobs[i].status != Running
    ensures Leads(h, CycleEvent(301), h.(jobs := h.jobs[j := h.jobs[j].(status := Queued, startedAt := None)]))
  {
    assert Requeue(h.jobs, 301) == h.jobs[j := h.jobs[j].(status := Queued, startedAt := None)];
  }

  // ---- a deployment of both ends -----------------------------------------------------

  const PLUGIN := "dark-backhaul"
  const ROW := Deployment(PLUGIN, "edge", 1, 2, 0, 1, Active)
  const IRAN := NewJob(1, Deploy(0, Iran))
  const KHAREJ := NewJob(2, Deploy(0, Kharej))
  const AT_IRAN := Tunnel(1, PLUGIN, "edge")
  const AT_KHAREJ := Tunnel(2, PLUGIN, "edge")
  const CREATE := CreateEvent(PLUGIN, "edge", 1, 2, true)

  function HalfScript(): seq<Event> {
    [CREATE] + [ClaimOf(1)] + [ResultOf(0, 1, true)] + [ClaimOf(2)]
  }

  /** Iran has deployed, Kharej is about to report. */
  function HalfDeployed(): Hub { Small([Finished(IRAN, Completed), Taken(KHAREJ)], [ROW], {AT_IRAN}) }

  lemma CreateLeads()
    ensures Leads(Empty([]), CREATE, Small([IRAN, KHAREJ], [ROW], {}))
  {
    assert !NameTaken([], "edge", 1, 2);
  }

  lemma HalfDeployedRun()
    ensures RunFrom([], HalfScript()) == HalfDeployed()
  {
    var h1 := Small([IRAN, KHAREJ], [ROW], {});
    var h2 := Small([Taken(IRAN), KHAREJ], [ROW], {});
    var h3 := Small([Finished(IRAN, Completed), KHAREJ], [ROW], {AT_IRAN});
    CreateLeads();
    ClaimLeads(h1, 0, 1);
    QuietResult(h2, 0, true, h3);
    ClaimLeads(h3, 1, 2);
    assert h1.jobs[0 := Taken(h1.jobs[0])] == h2.jobs && h3.jobs[1 := Taken(h3.jobs[1])] == HalfDeployed().jobs;
    hide Leads, RunFrom;
    assert RunFrom([], []) == Empty([]) by { NoEvents(); }
    Extend([], Empty([]), CREATE, h1);
    assert [] + [CREATE] == [CREATE];
    Extend([CREATE], h1, ClaimOf(1), h2);
    Extend([CREATE] + [ClaimOf(1)], h2, ResultOf(0, 1, true), h3);
    Extend([CREATE] + [ClaimOf(1)] + [ResultOf(0, 1, true)], h3, ClaimOf(2), HalfDeployed());
  }

  lemma NoEvents()
    ensures RunFrom([], []) == Empty([])
  {
  }

  function Both(): set<Tunnel> { {AT_IRAN, AT_KHAREJ} }

  /** Both ends have deployed. */
  function Deployed(): Hub { Small([Finished(IRAN, Completed), Finished(KHAREJ, Completed)], [ROW], Both()) }

  function DeployScript(): seq<Event> { HalfScript() + [ResultOf(1, 2, true)] }

  lemma DeployedRun()
    ensures RunFrom([], DeployScript()) == Deployed()
  {
    HalfDeployedRun();
    QuietResult(HalfDeployed(), 1, true, Deployed());
    Extend(HalfScript(), HalfDeployed(), ResultOf(1, 2, true), Deployed());
  }
}
