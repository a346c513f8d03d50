/** What is installed on the Agents against what the rows say: a completed linked job tells whether its tunnel is there.

    Agents install and remove by plugin and name, so a job of one row can take away the tunnel of another. */
module Installed {
  import opened Common
  import opened JobQueue
  import opened HubState
  import opened Saga
  import opened ExactlyOnce
  import opened NameUniqueness

  predicate LivePlace(deps: seq<Deployment>, p: Tunnel) {
    exists d: nat, s: Side :: d < |deps| && Live(deps[d].lifecycle) && deps[d].Place(s) == p
  }

  /** A removal that no row links and that has not ended. */
  predicate OpenUninstall(job: Job) { job.kind.Uninstall? && !job.status.Terminal() }

  predicate UninstallPending(jobs: seq<Job>, p: Tunnel) {
    exists j :: 0 <= j < |jobs| && OpenUninstall(jobs[j]) && Target([], jobs[j]) == Some(p)
  }

  /** The event leaves a job behind that no row links: it relinks a row whose jobs are not finished, or queues the
      removal of a live row's tunnel on the side. */
  predicate LeavesJobs(h: Hub, e: Event)
    requires forall d :: 0 <= d < |h.deps| ==> Linked(h, d)
  {
    match e
    case ReconfigureEvent(d, permitted) => d < |h.deps| && h.deps[d].lifecycle.Active? && permitted && !Settled(h, d)
    case RemoveTunnelEvent(node, plugin, name) =>
      var managed := FirstManaged(h.deps, node, name);
      if managed.Some? then !Settled(h, managed.value) else LivePlace(h.deps, Tunnel(node, plugin, name))
    case _ => false
  }

  /** The event makes a row live while an unlinked removal of its tunnel is still to come. */
  predicate MeetsUninstall(h: Hub, e: Event) {
    match e
    case CreateEvent(plugin, name, iran, kharej, permitted) =>
      permitted &&
      (UninstallPending(h.jobs, Tunnel(iran, plugin, name)) || UninstallPending(h.jobs, Tunnel(kharej, plugin, name)))
    case RetryEvent(d, permitted) => permitted && RevivesUnderUninstall(h, d)
    case RemoveEvent(d) => RevivesUnderUninstall(h, d)
    case _ => false
  }

  predicate RevivesUnderUninstall(h: Hub, d: nat) {
    d < |h.deps| && h.deps[d].lifecycle.RolledBack? && exists s: Side :: UninstallPending(h.jobs, h.deps[d].Place(s))
  }

  /** Jobs stay the business of the row that has their tunnel. */
  predicate Orderly(h: Hub, e: Event)
    requires forall d :: 0 <= d < |h.deps| ==> Linked(h, d)
  {
    !LeavesJobs(h, e) && !MeetsUninstall(h, e) && !RevivesTakenName(true, h, e)
  }

  // ---- the invariant -----------------------------------------------------------------

  /** Every unfinished job of a deployment is linked. */
  predicate Current(jobs: seq<Job>, deps: seq<Deployment>) {
    forall j :: 0 <= j < |jobs| && !jobs[j].status.Terminal() && (jobs[j].kind.Deploy? || jobs[j].kind.Remove?) ==>
      jobs[j].kind.dep < |deps| && deps[jobs[j].kind.dep].JobOf(jobs[j].kind.side) == j
  }

  /** No unfinished removal without a row names a live row's tunnel. */
  ghost predicate NothingAstray(jobs: seq<Job>, deps: seq<Deployment>) {
    forall j, d: nat, s: Side ::
      0 <= j < |jobs| && OpenUninstall(jobs[j]) && d < |deps| && Live(deps[d].lifecycle) ==>
        Target([], jobs[j]) != Some(deps[d].Place(s))
  }

  predicate EndsApart(deps: seq<Deployment>) {
    forall d :: 0 <= d < |deps| ==> deps[d].iranNode != deps[d].kharejNode
  }

  predicate SideTold(row: Deployment, s: Side, jobs: seq<Job>, installed: set<Tunnel>) {
    row.JobOf(s) < |jobs| &&
    var job := jobs[row.JobOf(s)];
    Live(row.lifecycle) && job.status.Completed? ==> (job.kind.Deploy? <==> row.Place(s) in installed)
  }

  /** A completed linked job of a live row tells what is installed: its tunnel after a deploy, not after a removal. */
  predicate RowsTold(jobs: seq<Job>, deps: seq<Deployment>, installed: set<Tunnel>) {
    forall d, s: Side :: 0 <= d < |deps| ==> SideTold(deps[d], s, jobs, installed)
  }

  ghost predicate InstalledInv(h: Hub) {
    && Current(h.jobs, h.deps) && NothingAstray(h.jobs, h.deps)
    && NamesUnique(true, h.deps) && EndsApart(h.deps) && RowsTold(h.jobs, h.deps, h.installed)
  }

  // ---- how links evolve ----------------------------------------------------------------

  /** A side keeps its job or gets a new one once the old one is finished; new jobs of deployments are linked. */
  predicate LinksEvolve(h: Hub, h': Hub) {
    && |h.deps| <= |h'.deps| && |h.jobs| <= |h'.jobs|
    && (forall d, s: Side :: 0 <= d < |h'.deps| ==> LinkEvolves(h, h', d, s))
    && (forall j :: |h.jobs| <= j < |h'.jobs| && (h'.jobs[j].kind.Deploy? || h'.jobs[j].kind.Remove?) ==>
          h'.jobs[j].kind.dep < |h'.deps| && h'.deps[h'.jobs[j].kind.dep].JobOf(h'.jobs[j].kind.side) == j)
  }

  predicate LinkEvolves(h: Hub, h': Hub, d: nat, s: Side)
    requires d < |h'.deps|
  {
    if h'.deps[d].JobOf(s) < |h.jobs| then
      && d < |h.deps| && h.deps[d].JobOf(s) == h'.deps[d].JobOf(s)
      && (Live(h'.deps[d].lifecycle) ==> Live(h.deps[d].lifecycle))
    else d < |h.deps| ==> h.deps[d].JobOf(s) < |h.jobs| && h.jobs[h.deps[d].JobOf(s)].status.Terminal()
  }

  lemma {:induction false} QueueItemsKind(h: Hub, op: nat, upTo: nat)
    requires upTo <= |h.items|
    ensures QueueItems(h, op, upTo).installed == h.installed
    ensures var r := QueueItems(h, op, upTo);
      forall k :: |h.jobs| <= k < |r.jobs| ==> r.jobs[k].kind == Misc
  {
    if upTo > 0 {
      QueueItemsKind(h, op, upTo - 1);
      QueueItemsAppends(h, op, upTo - 1);
    }
  }

  lemma FrameLinks(h: Hub, h': Hub)
    requires h'.deps == h.deps && |h.jobs| <= |h'.jobs|
    requires forall d :: 0 <= d < |h.deps| ==> Linked(h, d)
    requires forall k :: |h.jobs| <= k < |h'.jobs| ==> !h'.jobs[k].kind.Deploy? && !h'.jobs[k].kind.Remove?
    ensures LinksEvolve(h, h')
  {
    forall d, s: Side | 0 <= d < |h'.deps| ensures LinkEvolves(h, h', d, s) { assert Linked(h, d); }
  }

  lemma CreateEvolvesLinks(h: Hub, plugin: string, name: string, iran: nat, kharej: nat, permitted: bool)
    requires forall d :: 0 <= d < |h.deps| ==> Linked(h, d)
    ensures LinksEvolve(h, Create(h, plugin, name, iran, kharej, permitted).hub)
  {
    var h' := Create(h, plugin, name, iran, kharej, permitted).hub;
    forall d, s: Side | 0 <= d < |h'.deps| ensures LinkEvolves(h, h', d, s) {
      if d < |h.deps| { assert Linked(h, d); }
    }
  }

  lemma RetryEvolvesLinks(h: Hub, d: nat, permitted: bool)
    requires forall d :: 0 <= d < |h.deps| ==> Linked(h, d)
    requires d < |h.deps| && Retriable(h, d, permitted)
    ensures LinksEvolve(h, Retry(h, d, permitted).hub)
  {
    var h' := Retry(h, d, permitted).hub;
    forall e, s: Side | 0 <= e < |h'.deps| ensures LinkEvolves(h, h', e, s) {
      assert Linked(h, e);
      if s.Iran? {} else {}
    }
  }

  /** Queueing both sides of a row without unfinished jobs anew. */
  lemma BothEvolveLinks(h: Hub, d: nat, remove: bool)
    requires d < |h.deps| && Linked(h, d) && Settled(h, d)
    requires remove || h.deps[d].lifecycle.Active?
    requires forall d :: 0 <= d < |h.deps| ==> Linked(h, d)
    ensures LinksEvolve(h, if remove then SetLifecycle(QueueBoth(h, d, true), d, Removing) else QueueBoth(h, d, false))
  {
    var h' := if remove then SetLifecycle(QueueBoth(h, d, true), d, Removing) else QueueBoth(h, d, false);
    forall e, s: Side | 0 <= e < |h'.deps| ensures LinkEvolves(h, h', e, s) {
      assert Linked(h, e);
      if s.Iran? {} else {}
    }
  }

  lemma StepKeepsInstalled(h: Hub, e: Event)
    requires !e.DeliverEvent?
    requires forall d :: 0 <= d < |h.deps| ==> Linked(h, d)
    ensures Step(h, e).hub.installed == h.installed
  {
    if e.QueueFleetEvent? { QueueItemsKind(h, e.op, |h.items|); }
  }

  lemma QuietStepsEvolveLinks(h: Hub, e: Event)
    requires e.InsertEvent? || e.ClaimEvent? || e.RenewEvent? || e.CycleEvent? || e.CreateFleetEvent? ||
      e.QueueFleetEvent? || e.CancelFleetEvent? || (e.RemoveTunnelEvent? && FirstManaged(h.deps, e.node, e.name).None?)
    requires forall d :: 0 <= d < |h.deps| ==> Linked(h, d)
    ensures LinksEvolve(h, Step(h, e).hub)
  {
    if e.QueueFleetEvent? { QueueItemsKind(h, e.op, |h.items|); }
    hide LinksEvolve;
    FrameLinks(h, Step(h, e).hub);
  }

  lemma OtherStepsEvolveLinks(h: Hub, e: Event)
    requires forall d :: 0 <= d < |h.deps| ==> Linked(h, d)
    requires !e.DeliverEvent? && Step(h, e).reply == Accepted && !LeavesJobs(h, e)
    ensures LinksEvolve(h, Step(h, e).hub)
  {
    hide LinksEvolve;
    if e.CreateEvent? {
      CreateEvolvesLinks(h, e.plugin, e.name, e.iran, e.kharej, e.permitted);
    } else if e.RetryEvent? {
      RetryEvolvesLinks(h, e.dep, e.permitted);
    } else if e.RemoveEvent? {
      BothEvolveLinks(h, e.dep, true);
    } else if e.ReconfigureEvent? {
      BothEvolveLinks(h, e.dep, false);
    } else if e.RemoveTunnelEvent? && FirstManaged(h.deps, e.node, e.name).Some? {
      BothEvolveLinks(h, FirstManaged(h.deps, e.node, e.name).value, true);
    } else {
      QuietStepsEvolveLinks(h, e);
    }
  }

  lemma ResultEvolvesLink(h: Hub, j: nat, status: Status, d: nat, s: Side)
    requires forall d :: 0 <= d < |h.deps| ==> Linked(h, d)
    requires d < |h.deps|
    ensures d < |DeploymentEffect(h, j, status).deps| && LinkEvolves(h, DeploymentEffect(h, j, status), d, s)
  {
    assert Linked(h, d);
  }

  lemma ResultEvolvesLinks(h: Hub, j: nat, status: Status)
    requires forall d :: 0 <= d < |h.deps| ==> Linked(h, d)
    ensures LinksEvolve(h, DeploymentEffect(h, j, status)) && DeploymentEffect(h, j, status).installed == h.installed
  {
    hide LinkEvolves;
    var h' := DeploymentEffect(h, j, status);
    assert |h'.deps| == |h.deps|;
    forall d, s: Side | 0 <= d < |h'.deps| ensures LinkEvolves(h, h', d, s) { ResultEvolvesLink(h, j, status, d, s); }
  }

  /** Rows keep their tunnels' names. */
  predicate SamePlaces(deps: seq<Deployment>, deps': seq<Deployment>) {
    |deps| <= |deps'| && forall d, s: Side :: 0 <= d < |deps| ==> deps'[d].Place(s) == deps[d].Place(s)
  }

  /** Nothing but links and lifecycles changes. */
  lemma LinksKeepTold(h: Hub, h': Hub)
    requires Current(h.jobs, h.deps) && RowsTold(h.jobs, h.deps, h.installed)
    requires LinksEvolve(h, h') && h'.installed == h.installed && SamePlaces(h.deps, h'.deps)
    requires Evolved(h.jobs, h'.jobs) && NewOnesQueued(h'.jobs, |h.jobs|)
    requires forall k :: 0 <= k < |h.jobs| ==> h'.jobs[k].status.Terminal() == h.jobs[k].status.Terminal()
    requires forall d :: 0 <= d < |h'.deps| ==> Linked(h', d)
    ensures Current(h'.jobs, h'.deps) && RowsTold(h'.jobs, h'.deps, h'.installed)
  {
    forall d, s: Side | 0 <= d < |h'.deps| ensures SideTold(h'.deps[d], s, h'.jobs, h'.installed) {
      assert Linked(h', d) && LinkEvolves(h, h', d, s);
      if h'.deps[d].JobOf(s) < |h.jobs| { assert SideTold(h.deps[d], s, h.jobs, h.installed); }
    }
    forall j | 0 <= j < |h'.jobs| && !h'.jobs[j].status.Terminal() &&
      (h'.jobs[j].kind.Deploy? || h'.jobs[j].kind.Remove?)
      ensures h'.jobs[j].kind.dep < |h'.deps| && h'.deps[h'.jobs[j].kind.dep].JobOf(h'.jobs[j].kind.side) == j
    {
      if j < |h.jobs| { assert LinkEvolves(h, h', h.jobs[j].kind.dep, h.jobs[j].kind.side); }
    }
  }

  // ---- a job's work ----------------------------------------------------------------------

  /** An unfinished job touches no tunnel of a live row but the one it is linked for. */
  lemma OtherPlacesUntouched(h: Hub, j: nat, d: nat, s: Side)
    requires SagaInv(h) && InstalledInv(h) && j < |h.jobs| && !h.jobs[j].status.Terminal()
    requires d < |h.deps| && Live(h.deps[d].lifecycle) && h.deps[d].JobOf(s) != j
    ensures Target(h.deps, h.jobs[j]) != Some(h.deps[d].Place(s))
  {
    var kind := h.jobs[j].kind;
    if kind.Uninstall? {
      assert Target(h.deps, h.jobs[j]) == Target([], h.jobs[j]);
      assert OpenUninstall(h.jobs[j]);
    } else if kind.Deploy? || kind.Remove? {
      var owner := kind.dep;
      assert RowOk(h.deps[owner], owner, h.jobs);
      assert h.deps[owner].JobOf(kind.side) == j;
      assert Target(h.deps, h.jobs[j]) == Some(h.deps[owner].Place(kind.side));
      assert Live(h.deps[owner].lifecycle);
      if owner == d {
        assert h.deps[d].iranNode != h.deps[d].kharejNode;
      } else {
        assert !Clash(true, h.deps[owner], h.deps[d]) && !Clash(true, h.deps[d], h.deps[owner]);
      }
    }
  }

  /** A linked job's work is its side's. */
  lemma LinkedTarget(h: Hub, d: nat, s: Side)
    requires SagaInv(h) && d < |h.deps|
    ensures h.deps[d].JobOf(s) < |h.jobs| && Target(h.deps, h.jobs[h.deps[d].JobOf(s)]) == Some(h.deps[d].Place(s))
  {
    assert RowOk(h.deps[d], d, h.jobs);
  }

  lemma WorkKeepsTold(h: Hub, h1: Hub, j: nat, status: Status, left: bool)
    requires SagaInv(h) && InstalledInv(h) && TurnsTerminal(h.jobs, h1.jobs, j, status) && h1.deps == h.deps
    requires h1.installed == InstalledAfter(h.deps, h.installed, h.jobs[j], status, left)
    ensures Current(h1.jobs, h1.deps) && RowsTold(h1.jobs, h1.deps, h1.installed)
  {
    forall d, s: Side | 0 <= d < |h1.deps| ensures SideTold(h1.deps[d], s, h1.jobs, h1.installed) {
      assert SideTold(h.deps[d], s, h.jobs, h.installed);
      if h.deps[d].JobOf(s) == j {
        LinkedTarget(h, d, s);
        assert RowOk(h.deps[d], d, h.jobs);
      } else if Live(h.deps[d].lifecycle) {
        OtherPlacesUntouched(h, j, d, s);
      }
    }
  }

  // ---- every step ------------------------------------------------------------------------

  lemma StepKeepsPlaces(h: Hub, e: Event)
    requires SagaInv(h)
    requires forall d :: 0 <= d < |h.deps| ==> Linked(h, d)
    ensures SamePlaces(h.deps, Step(h, e).hub.deps)
  {
    hide Step, SagaInv;
    StepEvolvesRows(h, e);
  }

  lemma DeliveryKeepsTold(h: Hub, e: Event)
    requires SagaInv(h) && InstalledInv(h) && e.DeliverEvent?
    requires forall d :: 0 <= d < |h.deps| ==> Linked(h, d)
    requires Step(h, e).reply == Accepted
    ensures Current(Step(h, e).hub.jobs, Step(h, e).hub.deps)
    ensures RowsTold(Step(h, e).hub.jobs, Step(h, e).hub.deps, Step(h, e).hub.installed)
  {
    var h1, status := DeliveryStages(h, e);
    var h' := Step(h, e).hub;
    StepKeeps(h, e);
    LinksResolve(h');
    StepKeepsPlaces(h, e);
    ResultEvolvesLinks(h1, e.job, status);
    hide Step, SagaInv, InstalledInv, DeploymentEffect, Current, RowsTold, LinksEvolve;
    WorkKeepsTold(h, h1, e.job, status, e.left);
    LinksKeepTold(h1, h');
  }

  lemma StepKeepsTold(h: Hub, e: Event)
    requires SagaInv(h) && InstalledInv(h)
    requires forall d :: 0 <= d < |h.deps| ==> Linked(h, d)
    requires !LeavesJobs(h, e)
    ensures Current(Step(h, e).hub.jobs, Step(h, e).hub.deps)
    ensures RowsTold(Step(h, e).hub.jobs, Step(h, e).hub.deps, Step(h, e).hub.installed)
  {
    if Step(h, e).reply != Accepted {
      RefusedHasNoEffect(h, e);
    } else if e.DeliverEvent? {
      DeliveryKeepsTold(h, e);
    } else {
      hide Step, SagaInv, LeavesJobs, LinksEvolve, Current, RowsTold;
      OtherStepsEvolveLinks(h, e);
      StepKeepsInstalled(h, e);
      StepEvolves(h, e);
      StepKeeps(h, e);
      LinksResolve(Step(h, e).hub);
      StepKeepsPlaces(h, e);
      LinksKeepTold(h, Step(h, e).hub);
    }
  }

  lemma ResultQueuesRemovals(h: Hub, j: nat, status: Status)
    requires forall d :: 0 <= d < |h.deps| ==> Linked(h, d)
    ensures var jobs' := DeploymentEffect(h, j, status).jobs;
      forall k :: |h.jobs| <= k < |jobs'| ==> jobs'[k].kind.Remove?
  {
  }

  /** Only the removal of an unmanaged tunnel queues a job without a row. */
  lemma DeliveryQueuesNoUninstall(h: Hub, e: Event, j: nat)
    requires SagaInv(h) && e.DeliverEvent?
    requires forall d :: 0 <= d < |h.deps| ==> Linked(h, d)
    requires |h.jobs| <= j < |Step(h, e).hub.jobs|
    ensures !Step(h, e).hub.jobs[j].kind.Uninstall?
  {
    if Step(h, e).reply == Accepted {
      var h1, status := DeliveryStages(h, e);
      ResultQueuesRemovals(h1, e.job, status);
    } else {
      RefusedHasNoEffect(h, e);
    }
  }

  lemma RetryQueuesNoUninstall(h: Hub, d: nat, permitted: bool, j: nat)
    requires d < |h.deps| ==> Linked(h, d)
    requires |h.jobs| <= j < |Retry(h, d, permitted).hub.jobs|
    ensures !Retry(h, d, permitted).hub.jobs[j].kind.Uninstall?
  {
  }

  lemma NewUninstall(h: Hub, e: Event, j: nat)
    requires SagaInv(h)
    requires forall d :: 0 <= d < |h.deps| ==> Linked(h, d)
    requires |h.jobs| <= j < |Step(h, e).hub.jobs| && Step(h, e).hub.jobs[j].kind.Uninstall?
    ensures e.RemoveTunnelEvent? && FirstManaged(h.deps, e.node, e.name).None? && Step(h, e).hub.deps == h.deps
    ensures Target([], Step(h, e).hub.jobs[j]) == Some(Tunnel(e.node, e.plugin, e.name))
  {
    hide SagaInv, Deliver, Retry;
    if e.DeliverEvent? {
      DeliveryQueuesNoUninstall(h, e, j);
    } else if e.RetryEvent? {
      RetryQueuesNoUninstall(h, e.dep, e.permitted, j);
    } else if e.QueueFleetEvent? {
      QueueItemsKind(h, e.op, |h.items|);
    }
  }

  /** Where a row has become live, no removal without a row waits for its tunnels. */
  lemma NewlyLiveIsClear(h: Hub, e: Event, d: nat, s: Side)
    requires SagaInv(h) && !MeetsUninstall(h, e)
    requires forall d :: 0 <= d < |h.deps| ==> Linked(h, d)
    requires d < |Step(h, e).hub.deps| && Live(Step(h, e).hub.deps[d].lifecycle)
    requires d < |h.deps| ==> !Live(h.deps[d].lifecycle)
    ensures !UninstallPending(h.jobs, Step(h, e).hub.deps[d].Place(s))
  {
    StepEvolvesRows(h, e);
    if d < |h.deps| {
      RevivalIsAccepted(h, e);
      StepKeepsPlaces(h, e);
    } else {
      assert e.CreateEvent? && Step(h, e).reply == Accepted;
    }
  }

  lemma StepKeepsClear(h: Hub, e: Event)
    requires SagaInv(h) && NothingAstray(h.jobs, h.deps)
    requires forall d :: 0 <= d < |h.deps| ==> Linked(h, d)
    requires !LeavesJobs(h, e) && !MeetsUninstall(h, e)
    ensures NothingAstray(Step(h, e).hub.jobs, Step(h, e).hub.deps)
  {
    var h' := Step(h, e).hub;
    StepEvolves(h, e);
    StepKeepsPlaces(h, e);
    forall j, d: nat, s: Side | 0 <= j < |h'.jobs| && OpenUninstall(h'.jobs[j]) && d < |h'.deps| &&
      Live(h'.deps[d].lifecycle)
      ensures Target([], h'.jobs[j]) != Some(h'.deps[d].Place(s))
    {
      if j >= |h.jobs| {
        NewUninstall(h, e, j);
      } else if d < |h.deps| && Live(h.deps[d].lifecycle) {
        assert OpenUninstall(h.jobs[j]) && h'.deps[d].Place(s) == h.deps[d].Place(s);
      } else {
        NewlyLiveIsClear(h, e, d, s);
        assert OpenUninstall(h.jobs[j]);
      }
    }
  }

  lemma StepKeepsEndsApart(h: Hub, e: Event)
    requires SagaInv(h) && EndsApart(h.deps)
    requires forall d :: 0 <= d < |h.deps| ==> Linked(h, d)
    ensures EndsApart(Step(h, e).hub.deps)
  {
    StepEvolvesRows(h, e);
  }

  lemma StepKeepsInstalledInv(h: Hub, e: Event)
    requires SagaInv(h) && InstalledInv(h)
    requires forall d :: 0 <= d < |h.deps| ==> Linked(h, d)
    requires Orderly(h, e)
    ensures InstalledInv(Step(h, e).hub)
  {
    StepKeepsTold(h, e);
    StepKeepsClear(h, e);
    NamesStayUniqueExactly(true, h, e);
    StepKeepsEndsApart(h, e);
  }

  predicate OrderlyRun(h: Hub, events: seq<Event>)
    requires SagaInv(h)
  {
    events == [] ||
    (OrderlyRun(h, events[..|events| - 1]) &&
     (LinksResolve(Run(h, events[..|events| - 1])); Orderly(Run(h, events[..|events| - 1]), events[|events| - 1])))
  }

  /** Over every orderly run, whatever fails. */
  lemma {:induction false} ToldOverRuns(h: Hub, events: seq<Event>)
    requires SagaInv(h) && InstalledInv(h) && OrderlyRun(h, events)
    ensures InstalledInv(Run(h, events))
  {
    if events != [] {
      var rest := events[..|events| - 1];
      ToldOverRuns(h, rest);
      LinksResolve(Run(h, rest));
      StepKeepsInstalledInv(Run(h, rest), events[|events| - 1]);
    }
  }

  // ---- jobs left behind --------------------------------------------------------------------

  lemma RelinkKeepsCurrentExactly(h: Hub, d: nat, remove: bool)
    requires SagaInv(h) && Current(h.jobs, h.deps) && d < |h.deps| && Linked(h, d)
    ensures |QueueBoth(h, d, remove).deps| == |h.deps|
    ensures Current(QueueBoth(h, d, remove).jobs, QueueBoth(h, d, remove).deps) <==> Settled(h, d)
  {
    var h', row := QueueBoth(h, d, remove), h.deps[d];
    assert RowOk(row, d, h.jobs);
    hide SagaInv, LifecycleOk;
    assert h'.jobs[..|h.jobs|] == h.jobs;
    if !Settled(h, d) {
      var s := if StatusOf(h, d, Iran).Terminal() then Kharej else Iran;
      var j := row.JobOf(s);
      assert h'.jobs[j] == h.jobs[j] && h'.deps[d].JobOf(s) >= |h.jobs|;
    } else {
      forall j | 0 <= j < |h'.jobs| && !h'.jobs[j].status.Terminal() &&
        (h'.jobs[j].kind.Deploy? || h'.jobs[j].kind.Remove?)
        ensures h'.jobs[j].kind.dep < |h'.deps| && h'.deps[h'.jobs[j].kind.dep].JobOf(h'.jobs[j].kind.side) == j
      {
        if j < |h.jobs| { assert h'.jobs[j] == h.jobs[j]; }
      }
    }
  }

  lemma CurrentIgnoresLifecycle(h: Hub, d: nat, lifecycle: Lifecycle)
    requires d < |h.deps|
    ensures Current(h.jobs, SetLifecycle(h, d, lifecycle).deps) <==> Current(h.jobs, h.deps)
  {
  }

  lemma UninstallIsAstrayExactly(h: Hub, node: nat, plugin: string, name: string)
    requires NothingAstray(h.jobs, h.deps)
    ensures NothingAstray(Insert(h, node, Uninstall(plugin, name)).jobs, h.deps) <==>
      !LivePlace(h.deps, Tunnel(node, plugin, name))
  {
    var jobs' := Insert(h, node, Uninstall(plugin, name)).jobs;
    assert OpenUninstall(jobs'[|h.jobs|]) && Target([], jobs'[|h.jobs|]) == Some(Tunnel(node, plugin, name));
  }

  /** A reconfiguration or a tunnel removal leaves a job behind exactly when LeavesJobs says so. */
  lemma LeavesJobsExactly(h: Hub, e: Event)
    requires SagaInv(h) && Current(h.jobs, h.deps) && NothingAstray(h.jobs, h.deps)
    requires forall d :: 0 <= d < |h.deps| ==> Linked(h, d)
    requires (e.ReconfigureEvent? || e.RemoveTunnelEvent?) && Step(h, e).reply == Accepted
    ensures var h' := Step(h, e).hub;
      Current(h'.jobs, h'.deps) && NothingAstray(h'.jobs, h'.deps) <==> !LeavesJobs(h, e)
  {
    if !LeavesJobs(h, e) { StepKeepsClear(h, e); }
    hide SagaInv, NothingAstray, QueueBoth, Settled;
    if e.ReconfigureEvent? {
      RelinkKeepsCurrentExactly(h, e.dep, false);
    } else {
      var managed := FirstManaged(h.deps, e.node, e.name);
      if managed.Some? {
        RelinkKeepsCurrentExactly(h, managed.value, true);
        CurrentIgnoresLifecycle(QueueBoth(h, managed.value, true), managed.value, Removing);
      } else {
        UninstallIsAstrayExactly(h, e.node, e.plugin, e.name);
      }
    }
  }

  lemma PendingIsAstray(jobs: seq<Job>, jobs': seq<Job>, deps': seq<Deployment>, d: nat, s: Side)
    requires d < |deps'| && Live(deps'[d].lifecycle) && UninstallPending(jobs, deps'[d].Place(s))
    requires |jobs| <= |jobs'| && forall j :: 0 <= j < |jobs| ==> jobs'[j] == jobs[j]
    ensures !NothingAstray(jobs', deps')
  {
    var j :| 0 <= j < |jobs| && OpenUninstall(jobs[j]) && Target([], jobs[j]) == Some(deps'[d].Place(s));
    assert OpenUninstall(jobs'[j]) && Target([], jobs'[j]) == Some(deps'[d].Place(s));
  }

  /** A handler that makes a row live does so under a removal still to come exactly when MeetsUninstall says so. */
  lemma MeetsUninstallExactly(h: Hub, e: Event)
    requires SagaInv(h) && NothingAstray(h.jobs, h.deps)
    requires forall d :: 0 <= d < |h.deps| ==> Linked(h, d)
    requires (e.CreateEvent? || e.RetryEvent? || e.RemoveEvent?) && Step(h, e).reply == Accepted
    ensures NothingAstray(Step(h, e).hub.jobs, Step(h, e).hub.deps) <==> !MeetsUninstall(h, e)
  {
    var h' := Step(h, e).hub;
    OtherStepsAppend(h, e);
    if !MeetsUninstall(h, e) {
      StepKeepsClear(h, e);
    } else if e.CreateEvent? {
      var s := if UninstallPending(h.jobs, Tunnel(e.iran, e.plugin, e.name)) then Iran else Kharej;
      PendingIsAstray(h.jobs, h'.jobs, h'.deps, |h.deps|, s);
    } else {
      RevivalIsAccepted(h, e);
      StepKeepsPlaces(h, e);
      var s: Side :| UninstallPending(h.jobs, h.deps[e.dep].Place(s));
      hide Step;
      PendingIsAstray(h.jobs, h'.jobs, h'.deps, e.dep, s);
    }
  }

  // ---- what a retry covers and what a removal takes ----------------------------------------

  /** The side's linked job completed, but it was a removal. */
  predicate SkippedRemoval(h: Hub, d: nat, s: Side)
    requires Linked(h, d)
  {
    h.jobs[h.deps[d].JobOf(s)].kind.Remove? && StatusOf(h, d, s).Completed?
  }

  /** The side has the tunnel, or a fresh deploy to come. */
  predicate Covered(h: Hub, h': Hub, d: nat, s: Side)
    requires d < |h.deps| && Linked(h', d)
  {
    h.deps[d].Place(s) in h'.installed ||
    (h'.deps[d].JobOf(s) >= |h.jobs| && h'.jobs[h'.deps[d].JobOf(s)] == NewJob(h.deps[d].NodeOf(s), Deploy(d, s)))
  }

  /** What a retry does to its row: a side keeps its job if that completed, or gets a new deploy. */
  lemma RetriedSide(h: Hub, d: nat, permitted: bool, s: Side)
    requires Linked(h, d) && Retriable(h, d, permitted)
    ensures var h' := Retry(h, d, permitted).hub;
      && |h'.deps| == |h.deps| && Linked(h', d) && h'.installed == h.installed
      && h'.deps[d].lifecycle.Active? && h'.deps[d].Place(s) == h.deps[d].Place(s)
      && (if StatusOf(h, d, s).Completed? && !h.deps[d].lifecycle.RolledBack? then
            && h'.deps[d].JobOf(s) == h.deps[d].JobOf(s)
            && h'.jobs[h'.deps[d].JobOf(s)] == h.jobs[h.deps[d].JobOf(s)]
          else
            && h'.deps[d].JobOf(s) >= |h.jobs|
            && h'.jobs[h'.deps[d].JobOf(s)] == NewJob(h.deps[d].NodeOf(s), Deploy(d, s)))
  {
    if s.Iran? {} else {}
  }

  /** A retry leaves no side without the tunnel and without a fresh deploy, exactly when no
      side is skipped because its linked job completed although that job was a removal. */
  lemma RetryCoversEverySide(h: Hub, d: nat, permitted: bool)
    requires SagaInv(h) && InstalledInv(h) && Linked(h, d) && Retriable(h, d, permitted)
    ensures Linked(Retry(h, d, permitted).hub, d)
    ensures (forall s: Side :: Covered(h, Retry(h, d, permitted).hub, d, s)) <==>
      (h.deps[d].lifecycle.RolledBack? || forall s: Side :: !SkippedRemoval(h, d, s))
  {
    var h', row := Retry(h, d, permitted).hub, h.deps[d];
    assert RowOk(row, d, h.jobs);
    RetriedSide(h, d, permitted, Iran);
    forall s: Side ensures Covered(h, h', d, s) <==> (row.lifecycle.RolledBack? || !SkippedRemoval(h, d, s)) {
      RetriedSide(h, d, permitted, s);
      hide Retry, Retriable, LifecycleOk;
      assert SideTold(row, s, h.jobs, h.installed);
    }
  }

  /** One of the row's linked jobs names the tunnel of another live row. */
  predicate NamesAnothers(h: Hub, d: nat) {
    d < |h.deps| &&
    exists e: nat, s: Side, t: Side ::
      && e < |h.deps| && e != d && Live(h.deps[e].lifecycle) && h.deps[d].JobOf(s) < |h.jobs|
      && Target(h.deps, h.jobs[h.deps[d].JobOf(s)]) == Some(h.deps[e].Place(t))
  }

  /** The removals queued for a row that has shared a tunnel's name with a live one all along. */
  lemma NamedAnothersIsTaken(h: Hub, d: nat, e: nat, s: Side, t: Side)
    requires NamesUnique(true, h.deps) && d < |h.deps| && e < |h.deps| && e != d && Live(h.deps[e].lifecycle)
    requires h.deps[d].Place(s) == h.deps[e].Place(t) && !h.deps[d].lifecycle.Removing?
    ensures RevivesTakenName(true, h, RemoveEvent(d))
  {
    assert !Clash(true, h.deps[e], h.deps[d]) && !Clash(true, h.deps[d], h.deps[e]);
    assert Clash(true, h.deps[e], h.deps[d].(lifecycle := Active));
  }

  lemma RemovalTargets(h: Hub, d: nat)
    requires SagaInv(h) && Linked(h, d) && RemoveDeployment(h, d).reply == Accepted
    ensures var h' := RemoveDeployment(h, d).hub;
      && |h'.deps| == |h.deps| && (forall e :: 0 <= e < |h.deps| && e != d ==> h'.deps[e] == h.deps[e])
      && forall s: Side :: h'.deps[d].JobOf(s) < |h'.jobs|
           && Target(h'.deps, h'.jobs[h'.deps[d].JobOf(s)]) == Some(h.deps[d].Place(s))
  {
    var h' := RemoveDeployment(h, d).hub;
    RelinkBothKeeps(h, d, true);
    LinkedTarget(h', d, Iran);
    LinkedTarget(h', d, Kharej);
    hide SagaInv;
    forall s: Side ensures h'.deps[d].Place(s) == h.deps[d].Place(s) {}
    forall s: Side ensures h'.deps[d].JobOf(s) < |h'.jobs|
      && Target(h'.deps, h'.jobs[h'.deps[d].JobOf(s)]) == Some(h.deps[d].Place(s))
    {
      if s.Iran? {} else {}
    }
  }

  /** A removal that is accepted is aimed at another row's tunnel exactly when it revives a row whose name, with the
      same plugin, has been taken. */
  lemma RemovalNamesAnothersExactly(h: Hub, d: nat)
    requires SagaInv(h) && NamesUnique(true, h.deps) && Linked(h, d)
    requires RemoveDeployment(h, d).reply == Accepted
    ensures NamesAnothers(RemoveDeployment(h, d).hub, d) <==> RevivesTakenName(true, h, RemoveEvent(d))
  {
    var h' := RemoveDeployment(h, d).hub;
    RemovalTargets(h, d);
    assert !h.deps[d].lifecycle.Removing?;
    hide SagaInv, NamesUnique, RemoveDeployment, Target, Clash;
    if NamesAnothers(h', d) {
      var e: nat, s: Side, t: Side :| e < |h'.deps| && e != d && Live(h'.deps[e].lifecycle) &&
        Target(h'.deps, h'.jobs[h'.deps[d].JobOf(s)]) == Some(h'.deps[e].Place(t));
      NamedAnothersIsTaken(h, d, e, s, t);
    }
    if RevivesTakenName(true, h, RemoveEvent(d)) {
      var e :| 0 <= e < |h.deps| && e != d && Clash(true, h.deps[e], h.deps[d].(lifecycle := Active));
      var s, t := SharedPlace(h.deps[e], h.deps[d]);
      assert Live(h'.deps[e].lifecycle) && Target(h'.deps, h'.jobs[h'.deps[d].JobOf(s)]) == Some(h'.deps[e].Place(t));
    }
  }

  lemma SharedPlace(a: Deployment, b: Deployment) returns (s: Side, t: Side)
    requires Clash(true, a, b.(lifecycle := Active))
    ensures b.Place(s) == a.Place(t) && Live(a.lifecycle)
  {
    s := if b.iranNode == a.iranNode || b.iranNode == a.kharejNode then Iran else Kharej;
    t := if a.iranNode == b.NodeOf(s) then Iran else Kharej;
  }
}
