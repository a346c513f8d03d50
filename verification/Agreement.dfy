/** The two ends agree: once a deployment's jobs are finished, its tunnel is installed on both nodes or on neither.

    On plain runs nothing installed is redeployed, a job that fails leaves no tunnel, no retry skips a side whose
    removal completed, and no job touches another row's tunnel. On other runs it is results that may part the ends. */
module Agreement {
  import opened Common
  import opened JobQueue
  import opened HubState
  import opened Saga
  import opened ExactlyOnce
  import opened SagaTheorems
  import opened NameUniqueness
  import opened Installed

  predicate SameEnds(row: Deployment, installed: set<Tunnel>) {
    row.Place(Iran) in installed <==> row.Place(Kharej) in installed
  }

  /** `plain`: also, a tunnel whose deploy is queued or has failed is not there. */
  predicate SideAgrees(plain: bool, row: Deployment, s: Side, jobs: seq<Job>, installed: set<Tunnel>)
    requires row.JobOf(s) < |jobs|
  {
    var job := jobs[row.JobOf(s)];
    && (row.lifecycle.Active? ==> job.kind.Deploy?)
    && (row.lifecycle.RollingBack? && job.kind.Deploy? ==> row.Place(s) !in installed)
    && (plain && !job.status.Completed? && (job.kind.Deploy? || job.status.Failed?) ==> row.Place(s) !in installed)
  }

  predicate RowAgrees(plain: bool, row: Deployment, jobs: seq<Job>, installed: set<Tunnel>) {
    && row.iranJob < |jobs| && row.kharejJob < |jobs|
    && (Live(row.lifecycle) ==>
         && SideAgrees(plain, row, Iran, jobs, installed) && SideAgrees(plain, row, Kharej, jobs, installed)
         && (jobs[row.iranJob].status.Terminal() && jobs[row.kharejJob].status.Terminal() ==> SameEnds(row, installed)))
  }

  predicate RowsAgree(plain: bool, h: Hub) {
    forall d :: 0 <= d < |h.deps| ==> RowAgrees(plain, h.deps[d], h.jobs, h.installed)
  }

  /** Whatever is installed is the tunnel of a live row. */
  ghost predicate Accounted(deps: seq<Deployment>, installed: set<Tunnel>) {
    forall p :: p in installed ==> LivePlace(deps, p)
  }

  ghost predicate AgreeInv(plain: bool, h: Hub) {
    SagaInv(h) && InstalledInv(h) && RowsAgree(plain, h) && Accounted(h.deps, h.installed)
  }

  // ---- what parts the ends -----------------------------------------------------------------

  /** Whether the tunnel of a job is there after a result. */
  predicate There(job: Job, was: bool, completed: bool, left: bool) {
    if job.kind.Deploy? then completed || left else was && !completed && left
  }

  /** A deployment's job fails and its own tunnel is there afterwards. A deploy that puts back what it found leaves none
      where none was. */
  predicate LeavesTunnel(h: Hub, e: Event) {
    && e.DeliverEvent? && e.job < |h.jobs| && Finishes(h, e, e.job) && !e.completed && e.left
    && (h.jobs[e.job].kind.Deploy? ||
        (h.jobs[e.job].kind.Remove? &&
         var p := Target(h.deps, h.jobs[e.job]); p.Some? && p.value in h.installed))
  }

  /** The second of a row's two results, when the other job has ended with `other`. `there`: the tunnel of this job's
      node was there, `otherThere`: that of the other node is. If one of two deploys fails, its tunnel must not be
      there, because the rollback leaves it alone. */
  predicate PartsAs(deploys: bool, completed: bool, left: bool, other: Status, there: bool, otherThere: bool) {
    if deploys then
      if completed then other.Failed? && otherThere
      else if other.Completed? then left
      else left != otherThere
    else if completed then otherThere
    else (there && left) != otherThere
  }

  predicate PartsEnds(h: Hub, e: Event)
    requires forall d :: 0 <= d < |h.deps| ==> Linked(h, d)
  {
    && e.DeliverEvent? && e.job < |h.jobs| && Finishes(h, e, e.job)
    && (h.jobs[e.job].kind.Deploy? || h.jobs[e.job].kind.Remove?)
    && var d, s := h.jobs[e.job].kind.dep, h.jobs[e.job].kind.side;
       && d < |h.deps| && h.deps[d].JobOf(s) == e.job && StatusOf(h, d, s.Other()).Terminal()
       && PartsAs(h.jobs[e.job].kind.Deploy?, e.completed, e.left, StatusOf(h, d, s.Other()),
                  h.deps[d].Place(s) in h.installed, h.deps[d].Place(s.Other()) in h.installed)
  }

  /** What is asked of a result: on plain runs only that a job that fails leaves no tunnel. */
  predicate FineResult(plain: bool, h: Hub, e: Event)
    requires forall d :: 0 <= d < |h.deps| ==> Linked(h, d)
  {
    if plain then !LeavesTunnel(h, e) else !PartsEnds(h, e)
  }

  /** A retry that leaves out a side because its removal completed. */
  predicate SkipsRemoval(h: Hub, e: Event)
    requires forall d :: 0 <= d < |h.deps| ==> Linked(h, d)
  {
    && e.RetryEvent? && e.dep < |h.deps| && Retriable(h, e.dep, e.permitted) && !h.deps[e.dep].lifecycle.RolledBack?
    && exists s: Side :: SkippedRemoval(h, e.dep, s)
  }

  /** A reconfiguration of a deployment that has a tunnel installed. */
  predicate RedeploysInstalled(h: Hub, e: Event) {
    && e.ReconfigureEvent? && e.permitted && e.dep < |h.deps| && h.deps[e.dep].lifecycle.Active?
    && (h.deps[e.dep].Place(Iran) in h.installed || h.deps[e.dep].Place(Kharej) in h.installed)
  }

  /** What clean runs leave out. On plain ones nothing installed is redeployed and a job that fails leaves no tunnel,
      and nothing is asked of the two ends together. */
  predicate Clean(plain: bool, h: Hub, e: Event)
    requires forall d :: 0 <= d < |h.deps| ==> Linked(h, d)
  {
    Orderly(h, e) && !SkipsRemoval(h, e) && FineResult(plain, h, e) && (plain ==> !RedeploysInstalled(h, e))
  }

  // ---- a row's own result ------------------------------------------------------------------

  /** The job may have been claimed, renewed or requeued in between. */
  predicate SameWork(a: Job, b: Job) {
    a.kind == b.kind && a.node == b.node && (a.status == b.status || (!a.status.Terminal() && !b.status.Terminal()))
  }

  lemma AgreeFrame(plain: bool, row: Deployment, jobs: seq<Job>, jobs': seq<Job>,
                   installed: set<Tunnel>, installed': set<Tunnel>)
    requires RowAgrees(plain, row, jobs, installed) && |jobs| <= |jobs'|
    requires SameWork(jobs'[row.iranJob], jobs[row.iranJob]) && SameWork(jobs'[row.kharejJob], jobs[row.kharejJob])
    requires Live(row.lifecycle) ==> forall s: Side :: row.Place(s) in installed' <==> row.Place(s) in installed
    ensures RowAgrees(plain, row, jobs', installed')
  {
    assert Live(row.lifecycle) ==>
      (row.Place(Iran) in installed' <==> row.Place(Iran) in installed) &&
      (row.Place(Kharej) in installed' <==> row.Place(Kharej) in installed);
  }

  /** A delivery before the deployment is looked at. */
  predicate Worked(h: Hub, h1: Hub, e: Event, status: Status) {
    && e.DeliverEvent? && e.job < |h.jobs| && Finishes(h, e, e.job)
    && status == (if e.completed then Completed else Failed)
    && h1.deps == h.deps && TurnsTerminal(h.jobs, h1.jobs, e.job, status)
    && h1.installed == InstalledAfter(h.deps, h.installed, h.jobs[e.job], status, e.left)
  }

  lemma DeliveryWorks(h: Hub, e: Event) returns (h1: Hub, status: Status)
    requires SagaInv(h) && e.DeliverEvent?
    requires forall d :: 0 <= d < |h.deps| ==> Linked(h, d)
    requires Step(h, e).reply == Accepted
    ensures Worked(h, h1, e, status) && forall d :: 0 <= d < |h1.deps| ==> Linked(h1, d)
    ensures Step(h, e).hub == DeploymentEffect(h1, e.job, status)
    ensures Step(h, e).hub.installed == h1.installed && |Step(h, e).hub.deps| == |h1.deps|
    ensures Appended(h1.jobs, Step(h, e).hub.jobs)
  {
    h1, status := DeliveryStages(h, e);
    ResultEvolvesLinks(h1, e.job, status);
    DeploymentEffectRows(h1, e.job, status);
  }

  /** The row's job on side `s` has just ended: which tunnels are there now. */
  predicate Ended(h: Hub, h1: Hub, e: Event, status: Status, d: nat, s: Side) {
    && Worked(h, h1, e, status) && d < |h.deps| && h.deps[d].JobOf(s) == e.job
    && RowOk(h.deps[d], d, h.jobs) && Live(h.deps[d].lifecycle) && Linked(h1, d)
    && h.deps[d].JobOf(s.Other()) != e.job && h.deps[d].Place(s.Other()) != h.deps[d].Place(s)
    && (h.deps[d].Place(s) in h1.installed <==>
        There(h.jobs[e.job], h.deps[d].Place(s) in h.installed, e.completed, e.left))
    && (h.deps[d].Place(s.Other()) in h1.installed <==> h.deps[d].Place(s.Other()) in h.installed)
  }

  lemma OwnJobEnded(h: Hub, h1: Hub, e: Event, status: Status, d: nat, s: Side)
    requires SagaInv(h) && EndsApart(h.deps) && Worked(h, h1, e, status)
    requires d < |h.deps| && h.deps[d].JobOf(s) == e.job && Linked(h1, d)
    ensures Ended(h, h1, e, status, d, s) && FirstLinked(h1.deps, e.job) == Some(d)
  {
    LinkedTarget(h, d, s);
    LinkedOnce(h, d, s);
    assert RowOk(h.deps[d], d, h.jobs);
  }

  /** Whether the ends of the row are fine after its job's result. */
  predicate EndedWell(h: Hub, h1: Hub, d: nat)
    requires d < |h.deps| && h1.deps == h.deps && Linked(h1, d)
  {
    if h.deps[d].lifecycle.Active? && Split(h1, d) then
      forall s: Side :: StatusOf(h1, d, s).Failed? ==> h.deps[d].Place(s) !in h1.installed
    else Settled(h1, d) ==> SameEnds(h.deps[d], h1.installed)
  }

  /** Just this is what PartsEnds looks for. */
  lemma PartsEndsExactly(plain: bool, h: Hub, h1: Hub, e: Event, status: Status, d: nat, s: Side)
    requires Ended(h, h1, e, status, d, s)
    requires RowAgrees(plain, h.deps[d], h.jobs, h.installed) && SideTold(h.deps[d], s.Other(), h.jobs, h.installed)
    requires forall d :: 0 <= d < |h.deps| ==> Linked(h, d)
    ensures EndedWell(h, h1, d) <==> !PartsEnds(h, e)
  {
    var row, o := h.deps[d], s.Other();
    assert h.jobs[e.job].kind.side == s && h.jobs[e.job].kind.dep == d;
    assert SideAgrees(plain, row, s, h.jobs, h.installed) && SideAgrees(plain, row, o, h.jobs, h.installed);
    if row.lifecycle.RollingBack? { assert Compensating(row, d, h.jobs, s, {Queued, Running}); }
    assert StatusOf(h1, d, s) == status && StatusOf(h1, d, o) == StatusOf(h, d, o);
    assert Settled(h1, d) <==> StatusOf(h, d, o).Terminal();
    assert Split(h1, d) <==> StatusOf(h, d, o).Terminal() && e.completed != StatusOf(h, d, o).Completed?;
  }

  /** Where nothing that failed is installed, a failing job that leaves no tunnel cannot part the ends. */
  lemma PlainNeverParts(h: Hub, h1: Hub, e: Event, status: Status, d: nat, s: Side)
    requires Ended(h, h1, e, status, d, s) && RowAgrees(true, h.deps[d], h.jobs, h.installed)
    requires SideTold(h.deps[d], s.Other(), h.jobs, h.installed) && !LeavesTunnel(h, e)
    requires forall d :: 0 <= d < |h.deps| ==> Linked(h, d)
    ensures !PartsEnds(h, e)
  {
    var row, o := h.deps[d], s.Other();
    assert h.jobs[e.job].kind.side == s && h.jobs[e.job].kind.dep == d;
    assert SideAgrees(true, row, s, h.jobs, h.installed) && SideAgrees(true, row, o, h.jobs, h.installed);
    assert Target(h.deps, h.jobs[e.job]) == Some(row.Place(s));
    if row.lifecycle.RollingBack? { assert Compensating(row, d, h.jobs, s, {Queued, Running}); }
  }

  /** A row with its removal queued agrees unless the side that failed has the tunnel. */
  lemma RollingBackAgrees(plain: bool, row: Deployment, winner: Side, jobs: seq<Job>, installed: set<Tunnel>)
    requires row.lifecycle.RollingBack? && row.iranJob < |jobs| && row.kharejJob < |jobs|
    requires jobs[row.JobOf(winner)].kind.Remove? && jobs[row.JobOf(winner)].status.Queued?
    requires jobs[row.JobOf(winner.Other())].kind.Deploy?
    ensures RowAgrees(plain, row, jobs, installed) <==> row.Place(winner.Other()) !in installed
  {
  }

  lemma SplitRowAgrees(plain: bool, h: Hub, h1: Hub, e: Event, status: Status, d: nat, s: Side)
    requires Ended(h, h1, e, status, d, s) && RowAgrees(plain, h.deps[d], h.jobs, h.installed)
    requires forall d :: 0 <= d < |h1.deps| ==> Linked(h1, d)
    requires FirstLinked(h1.deps, e.job) == Some(d) && h.deps[d].lifecycle.Active? && Split(h1, d)
    ensures var h' := DeploymentEffect(h1, e.job, status);
      && d < |h'.deps| && h'.deps[d].lifecycle.RollingBack?
      && (RowAgrees(plain, h'.deps[d], h'.jobs, h'.installed) <==> EndedWell(h, h1, d))
  {
    var winner := if StatusOf(h1, d, Iran).Completed? then Iran else Kharej;
    var loser := winner.Other();
    assert StatusOf(h1, d, loser) in {StatusOf(h1, d, Iran), StatusOf(h1, d, Kharej)};
    SplitRow(h1, e.job, status, d, winner);
    var h', row := DeploymentEffect(h1, e.job, status), h.deps[d];
    assert h1.jobs[row.JobOf(loser)].kind.Deploy?;
    hide DeploymentEffect, RowAgrees, RowOk, Worked, There;
    assert EndedWell(h, h1, d) <==> row.Place(loser) !in h1.installed;
    assert h'.deps[d].Place(loser) == row.Place(loser);
    RollingBackAgrees(plain, h'.deps[d], winner, h'.jobs, h'.installed);
  }

  lemma UnsplitRowAgrees(plain: bool, h: Hub, h1: Hub, e: Event, status: Status, d: nat, s: Side)
    requires Ended(h, h1, e, status, d, s) && RowAgrees(plain, h.deps[d], h.jobs, h.installed)
    requires forall d :: 0 <= d < |h1.deps| ==> Linked(h1, d)
    requires FirstLinked(h1.deps, e.job) == Some(d) && (h.deps[d].lifecycle.Active? ==> !Split(h1, d))
    requires (plain ==> !LeavesTunnel(h, e)) && EndedWell(h, h1, d)
    ensures var h' := DeploymentEffect(h1, e.job, status);
      && d < |h'.deps| && RowAgrees(plain, h'.deps[d], h'.jobs, h'.installed)
      && (h'.deps[d].lifecycle.RolledBack? ==> forall t: Side :: h.deps[d].Place(t) !in h'.installed)
  {
    UnsplitRow(h1, e.job, status, d);
    var row := h.deps[d];
    hide DeploymentEffect;
    assert SideAgrees(plain, row, s, h.jobs, h.installed) && SideAgrees(plain, row, s.Other(), h.jobs, h.installed);
    assert h1.jobs[row.JobOf(s.Other())] == h.jobs[row.JobOf(s.Other())];
    if row.lifecycle.RollingBack? {
      assert Compensating(row, d, h.jobs, s, {Queued, Running});
      forall t: Side | status.Completed? ensures row.Place(t) !in h1.installed { assert t == s || t == s.Other(); }
    }
    assert SideAgrees(plain, row, s, h1.jobs, h1.installed) && SideAgrees(plain, row, s.Other(), h1.jobs, h1.installed);
    if s.Iran? {} else {}
  }

  /** A row that stays live and settled with its tunnel on one side does not agree. */
  lemma UnsplitRowParts(h: Hub, h1: Hub, e: Event, status: Status, d: nat, s: Side)
    requires Ended(h, h1, e, status, d, s)
    requires forall d :: 0 <= d < |h1.deps| ==> Linked(h1, d)
    requires FirstLinked(h1.deps, e.job) == Some(d) && (h.deps[d].lifecycle.Active? ==> !Split(h1, d))
    requires RowAgrees(false, h.deps[d], h.jobs, h.installed) && !EndedWell(h, h1, d)
    ensures var h' := DeploymentEffect(h1, e.job, status);
      d < |h'.deps| && !RowAgrees(false, h'.deps[d], h'.jobs, h'.installed)
  {
    UnsplitRow(h1, e.job, status, d);
    var row := h.deps[d];
    if row.lifecycle.RollingBack? {
      assert Compensating(row, d, h.jobs, s, {Queued, Running});
      assert SideAgrees(false, row, s.Other(), h.jobs, h.installed);
    }
  }

  // ---- deliveries --------------------------------------------------------------------------

  lemma OtherRowAgrees(plain: bool, h: Hub, h1: Hub, e: Event, status: Status, d: nat)
    requires AgreeInv(plain, h) && Worked(h, h1, e, status)
    requires forall d :: 0 <= d < |h1.deps| ==> Linked(h1, d)
    requires d < |h.deps| && !Links(h.deps[d], e.job)
    ensures var h' := DeploymentEffect(h1, e.job, status);
      d < |h'.deps| && RowAgrees(plain, h'.deps[d], h'.jobs, h'.installed) && h'.deps[d] == h.deps[d]
  {
    var h' := DeploymentEffect(h1, e.job, status);
    assert RowAgrees(plain, h.deps[d], h.jobs, h.installed);
    DeploymentEffectOnRow(h, h1, e.job, status, d);
    DeploymentEffectAppends(h1, e.job, status);
    if Live(h.deps[d].lifecycle) {
      OtherPlacesUntouched(h, e.job, d, Iran);
      OtherPlacesUntouched(h, e.job, d, Kharej);
    }
    hide DeploymentEffect, SagaInv, InstalledInv, Target, RowAgrees;
    forall s: Side | Live(h.deps[d].lifecycle)
      ensures h.deps[d].Place(s) in h'.installed <==> h.deps[d].Place(s) in h.installed
    {
      if s.Iran? {} else {}
    }
    AgreeFrame(plain, h.deps[d], h.jobs, h'.jobs, h.installed, h'.installed);
  }

  lemma LinkedRowAgrees(plain: bool, h: Hub, h1: Hub, e: Event, status: Status, d: nat)
    requires AgreeInv(plain, h) && Worked(h, h1, e, status) && d < |h.deps| && Links(h.deps[d], e.job)
    requires forall d :: 0 <= d < |h.deps| ==> Linked(h, d)
    requires forall d :: 0 <= d < |h1.deps| ==> Linked(h1, d)
    requires FineResult(plain, h, e)
    ensures var h' := DeploymentEffect(h1, e.job, status);
      && d < |h'.deps| && RowAgrees(plain, h'.deps[d], h'.jobs, h'.installed)
      && (h'.deps[d].lifecycle.RolledBack? ==> forall t: Side :: h.deps[d].Place(t) !in h'.installed)
  {
    assert RowAgrees(plain, h.deps[d], h.jobs, h.installed);
    var s := if h.deps[d].iranJob == e.job then Iran else Kharej;
    OwnJobEnded(h, h1, e, status, d, s);
    assert SideTold(h.deps[d], s.Other(), h.jobs, h.installed);
    if plain { PlainNeverParts(h, h1, e, status, d, s); }
    PartsEndsExactly(plain, h, h1, e, status, d, s);
    hide DeploymentEffect, SagaInv, InstalledInv, RowAgrees, PartsEnds, EndedWell, Ended, Worked, Accounted, RowsAgree,
      LeavesTunnel;
    if h.deps[d].lifecycle.Active? && Split(h1, d) {
      SplitRowAgrees(plain, h, h1, e, status, d, s);
    } else {
      UnsplitRowAgrees(plain, h, h1, e, status, d, s);
    }
  }

  lemma DeliveryKeepsRows(plain: bool, h: Hub, e: Event)
    requires AgreeInv(plain, h) && e.DeliverEvent?
    requires forall d :: 0 <= d < |h.deps| ==> Linked(h, d)
    requires FineResult(plain, h, e) && Step(h, e).reply == Accepted
    ensures RowsAgree(plain, Step(h, e).hub)
  {
    var h1, status := DeliveryWorks(h, e);
    var h' := DeploymentEffect(h1, e.job, status);
    hide DeploymentEffect, AgreeInv, RowAgrees, PartsEnds, Step, Worked;
    forall d | 0 <= d < |h'.deps| ensures RowAgrees(plain, h'.deps[d], h'.jobs, h'.installed) {
      assert h1.deps == h.deps by { assert Worked(h, h1, e, status); }
      if Links(h.deps[d], e.job) {
        LinkedRowAgrees(plain, h, h1, e, status, d);
      } else {
        OtherRowAgrees(plain, h, h1, e, status, d);
      }
    }
  }

  /** A tunnel that is there after the job's work is that of a row that was live. */
  lemma TunnelWasLive(plain: bool, h: Hub, h1: Hub, e: Event, status: Status, p: Tunnel) returns (d: nat, s: Side)
    requires AgreeInv(plain, h) && Worked(h, h1, e, status) && p in h1.installed
    ensures d < |h.deps| && Live(h.deps[d].lifecycle) && h.deps[d].Place(s) == p
  {
    if p in h.installed {
      assert LivePlace(h.deps, p);
      d, s :| d < |h.deps| && Live(h.deps[d].lifecycle) && h.deps[d].Place(s) == p;
    } else {
      d, s := h.jobs[e.job].kind.dep, h.jobs[e.job].kind.side;
      assert h.deps[d].JobOf(s) == e.job;
      LinkedTarget(h, d, s);
      assert RowOk(h.deps[d], d, h.jobs);
    }
  }

  lemma DeliveryKeepsAccounted(plain: bool, h: Hub, e: Event)
    requires AgreeInv(plain, h) && e.DeliverEvent?
    requires forall d :: 0 <= d < |h.deps| ==> Linked(h, d)
    requires FineResult(plain, h, e) && Step(h, e).reply == Accepted
    ensures Accounted(Step(h, e).hub.deps, Step(h, e).hub.installed)
  {
    var h1, status := DeliveryWorks(h, e);
    var h' := DeploymentEffect(h1, e.job, status);
    StepKeepsPlaces(h, e);
    hide DeploymentEffect, AgreeInv, RowAgrees, PartsEnds, Step, Worked;
    forall p | p in h'.installed ensures LivePlace(h'.deps, p) {
      var d, s := TunnelWasLive(plain, h, h1, e, status, p);
      assert h'.deps[d].Place(s) == p;
      if Links(h.deps[d], e.job) {
        LinkedRowAgrees(plain, h, h1, e, status, d);
      } else {
        OtherRowAgrees(plain, h, h1, e, status, d);
      }
    }
  }

  // ---- the other handlers ------------------------------------------------------------------

  /** A deploy is only queued for a tunnel that is not there. */
  predicate FreshDeployIsNeeded(h: Hub, h': Hub, k: nat)
    requires k < |h'.jobs|
  {
    h'.jobs[k].kind.Deploy? ==>
      Target(h'.deps, h'.jobs[k]).Some? && Target(h'.deps, h'.jobs[k]).value !in h.installed
  }

  predicate FreshDeploysAreNeeded(h: Hub, h': Hub) {
    forall k :: |h.jobs| <= k < |h'.jobs| ==> FreshDeployIsNeeded(h, h', k)
  }

  /** Rows other than `d` do not notice that `d` is relinked. */
  lemma OthersAgree(plain: bool, h: Hub, h': Hub, d: nat)
    requires RowsAgree(plain, h) && d < |h.deps| == |h'.deps| && h'.installed == h.installed
    requires |h.jobs| <= |h'.jobs| && h'.jobs[..|h.jobs|] == h.jobs && h'.deps == h.deps[d := h'.deps[d]]
    requires RowAgrees(plain, h'.deps[d], h'.jobs, h'.installed)
    ensures RowsAgree(plain, h')
  {
    assert forall k :: 0 <= k < |h.jobs| ==> h'.jobs[..|h.jobs|][k] == h.jobs[k];
    forall e | 0 <= e < |h'.deps| ensures RowAgrees(plain, h'.deps[e], h'.jobs, h'.installed) {
      if e != d {
        assert RowAgrees(plain, h.deps[e], h.jobs, h.installed);
        AgreeFrame(plain, h.deps[e], h.jobs, h'.jobs, h.installed, h'.installed);
      }
    }
  }

  /** A rolled-back row one of whose tunnels is installed has lost its name. */
  lemma InstalledIsTaken(plain: bool, h: Hub, d: nat, s: Side)
    requires AgreeInv(plain, h) && d < |h.deps| && h.deps[d].lifecycle.RolledBack?
    ensures h.deps[d].Place(s) in h.installed ==> RevivesTakenName(true, h, RetryEvent(d, true))
  {
    if h.deps[d].Place(s) in h.installed {
      assert LivePlace(h.deps, h.deps[d].Place(s));
      var e: nat, t: Side :| e < |h.deps| && Live(h.deps[e].lifecycle) && h.deps[e].Place(t) == h.deps[d].Place(s);
      assert Clash(true, h.deps[e], h.deps[d].(lifecycle := Active));
    }
  }

  lemma RetryKeepsAgreement(plain: bool, h: Hub, d: nat, permitted: bool)
    requires AgreeInv(plain, h) && Linked(h, d) && Retriable(h, d, permitted)
    requires h.deps[d].lifecycle.RolledBack? || forall s: Side :: !SkippedRemoval(h, d, s)
    requires !RevivesTakenName(true, h, RetryEvent(d, true))
    ensures RowsAgree(plain, Retry(h, d, permitted).hub)
  {
    var h' := Retry(h, d, permitted).hub;
    assert RowAgrees(plain, h.deps[d], h.jobs, h.installed) && RowOk(h.deps[d], d, h.jobs);
    RetriedRowOk(h, d, permitted);
    RetriedSide(h, d, permitted, Iran);
    RetriedSide(h, d, permitted, Kharej);
    InstalledAtRetry(plain, h, d, Iran);
    InstalledAtRetry(plain, h, d, Kharej);
    assert SideTold(h.deps[d], Iran, h.jobs, h.installed) && SideTold(h.deps[d], Kharej, h.jobs, h.installed);
    assert h.deps[d].lifecycle.RolledBack? || (!SkippedRemoval(h, d, Iran) && !SkippedRemoval(h, d, Kharej));
    hide Retry, Retriable, RevivesTakenName, Accounted, SagaInv, InstalledInv, RowsAgree, RowOk;
    OthersAgree(plain, h, h', d);
  }

  /** On plain runs a side that is about to get a new deploy has no tunnel. */
  lemma InstalledAtRetry(plain: bool, h: Hub, d: nat, s: Side)
    requires AgreeInv(plain, h) && d < |h.deps| && Linked(h, d) && Settled(h, d)
    requires !RevivesTakenName(true, h, RetryEvent(d, true))
    ensures plain && (h.deps[d].lifecycle.RolledBack? || !StatusOf(h, d, s).Completed?) ==>
      h.deps[d].Place(s) !in h.installed
  {
    if h.deps[d].lifecycle.RolledBack? {
      InstalledIsTaken(plain, h, d, s);
    } else {
      assert RowAgrees(plain, h.deps[d], h.jobs, h.installed);
      if s.Iran? {} else {}
    }
  }

  /** The only new deploys of a retry are those of its sides. */
  lemma RetryQueuesNeeded(h: Hub, d: nat, permitted: bool)
    requires AgreeInv(true, h) && Linked(h, d) && Retriable(h, d, permitted)
    requires !RevivesTakenName(true, h, RetryEvent(d, true))
    ensures FreshDeploysAreNeeded(h, Retry(h, d, permitted).hub)
  {
    InstalledAtRetry(true, h, d, Iran);
    InstalledAtRetry(true, h, d, Kharej);
    hide AgreeInv, RevivesTakenName;
  }

  /** Queueing removals on both sides of a row without unfinished jobs. */
  lemma RemovalKeepsAgreement(plain: bool, h: Hub, d: nat)
    requires AgreeInv(plain, h) && Linked(h, d) && Settled(h, d)
    ensures RowsAgree(plain, SetLifecycle(QueueBoth(h, d, true), d, Removing))
  {
    var h' := SetLifecycle(QueueBoth(h, d, true), d, Removing);
    assert h'.jobs[..|h.jobs|] == h.jobs;
    assert RowAgrees(plain, h'.deps[d], h'.jobs, h'.installed);
    hide AgreeInv, RowAgrees;
    assert RowsAgree(plain, h) by { assert AgreeInv(plain, h); }
    OthersAgree(plain, h, h', d);
  }

  lemma ReconfigureKeepsAgreement(plain: bool, h: Hub, d: nat)
    requires AgreeInv(plain, h) && Linked(h, d) && Settled(h, d) && h.deps[d].lifecycle.Active?
    requires plain ==> h.deps[d].Place(Iran) !in h.installed && h.deps[d].Place(Kharej) !in h.installed
    ensures RowsAgree(plain, QueueBoth(h, d, false))
    ensures plain ==> FreshDeploysAreNeeded(h, QueueBoth(h, d, false))
  {
    var h' := QueueBoth(h, d, false);
    assert h'.jobs[..|h.jobs|] == h.jobs;
    assert RowAgrees(plain, h'.deps[d], h'.jobs, h'.installed);
    hide SagaInv, InstalledInv, RowsAgree, RowAgrees;
    OthersAgree(plain, h, h', d);
  }

  lemma InstalledNameIsTaken(plain: bool, h: Hub, plugin: string, name: string, iran: nat, kharej: nat, node: nat)
    requires AgreeInv(plain, h) && (node == iran || node == kharej)
    ensures Tunnel(node, plugin, name) in h.installed ==> NameTaken(h.deps, name, iran, kharej)
  {
    if Tunnel(node, plugin, name) in h.installed { assert LivePlace(h.deps, Tunnel(node, plugin, name)); }
  }

  lemma CreateKeepsAgreement(plain: bool, h: Hub, e: Event)
    requires AgreeInv(plain, h) && e.CreateEvent?
    requires Create(h, e.plugin, e.name, e.iran, e.kharej, e.permitted).reply == Accepted
    ensures var h' := Create(h, e.plugin, e.name, e.iran, e.kharej, e.permitted).hub;
      RowsAgree(plain, h') && FreshDeploysAreNeeded(h, h')
  {
    var h' := Create(h, e.plugin, e.name, e.iran, e.kharej, e.permitted).hub;
    InstalledNameIsTaken(plain, h, e.plugin, e.name, e.iran, e.kharej, e.iran);
    InstalledNameIsTaken(plain, h, e.plugin, e.name, e.iran, e.kharej, e.kharej);
    hide SagaInv, InstalledInv, Accounted, NameTaken;
    forall d | 0 <= d < |h'.deps| ensures RowAgrees(plain, h'.deps[d], h'.jobs, h'.installed) {
      if d < |h.deps| {
        assert RowAgrees(plain, h.deps[d], h.jobs, h.installed);
        AgreeFrame(plain, h.deps[d], h.jobs, h'.jobs, h.installed, h'.installed);
      }
    }
  }

  lemma JobsFrameAgreement(plain: bool, h: Hub, h': Hub)
    requires AgreeInv(plain, h) && h'.deps == h.deps && h'.installed == h.installed
    requires Evolved(h.jobs, h'.jobs)
    requires forall k :: 0 <= k < |h.jobs| ==> h'.jobs[k].status.Terminal() == h.jobs[k].status.Terminal()
    ensures RowsAgree(plain, h')
  {
    forall e | 0 <= e < |h.deps| ensures RowAgrees(plain, h'.deps[e], h'.jobs, h'.installed) {
      assert RowAgrees(plain, h.deps[e], h.jobs, h.installed);
      AgreeFrame(plain, h.deps[e], h.jobs, h'.jobs, h.installed, h'.installed);
    }
  }

  // ---- every step and every run ------------------------------------------------------------

  lemma StepKeepsRowsAgreeing(plain: bool, h: Hub, e: Event)
    requires AgreeInv(plain, h)
    requires forall d :: 0 <= d < |h.deps| ==> Linked(h, d)
    requires Clean(plain, h, e)
    ensures RowsAgree(plain, Step(h, e).hub)
  {
    hide RowsAgree, InstalledInv, SagaInv, Accounted, PartsEnds;
    if Step(h, e).reply != Accepted {
      RefusedHasNoEffect(h, e);
    } else if e.DeliverEvent? {
      DeliveryKeepsRows(plain, h, e);
    } else if e.CreateEvent? {
      CreateKeepsAgreement(plain, h, e);
    } else if e.RetryEvent? {
      RetryKeepsAgreement(plain, h, e.dep, e.permitted);
    } else if e.RemoveEvent? {
      RemovalKeepsAgreement(plain, h, e.dep);
    } else if e.ReconfigureEvent? {
      ReconfigureKeepsAgreement(plain, h, e.dep);
    } else if e.RemoveTunnelEvent? && FirstManaged(h.deps, e.node, e.name).Some? {
      RemovalKeepsAgreement(plain, h, FirstManaged(h.deps, e.node, e.name).value);
    } else {
      StepKeepsInstalled(h, e);
      StepEvolves(h, e);
      JobsFrameAgreement(plain, h, Step(h, e).hub);
    }
  }

  /** Only a delivery ends a row's life. */
  lemma RetryKeepsLive(h: Hub, dep: nat, permitted: bool)
    requires dep < |h.deps| ==> Linked(h, dep)
    ensures var h' := Retry(h, dep, permitted).hub;
      && |h'.deps| == |h.deps|
      && forall d :: 0 <= d < |h.deps| && Live(h.deps[d].lifecycle) ==> Live(h'.deps[d].lifecycle)
  {
  }

  lemma OtherStepsKeepLive(h: Hub, e: Event)
    requires !e.DeliverEvent?
    requires forall d :: 0 <= d < |h.deps| ==> Linked(h, d)
    ensures |h.deps| <= |Step(h, e).hub.deps|
    ensures forall d :: 0 <= d < |h.deps| && Live(h.deps[d].lifecycle) ==> Live(Step(h, e).hub.deps[d].lifecycle)
  {
    if e.RetryEvent? { RetryKeepsLive(h, e.dep, e.permitted); }
    hide Requeue, Claim, Renew, Retry;
  }

  lemma OtherStepsKeepAccounted(h: Hub, e: Event)
    requires SagaInv(h) && Accounted(h.deps, h.installed) && !e.DeliverEvent?
    requires forall d :: 0 <= d < |h.deps| ==> Linked(h, d)
    ensures Accounted(Step(h, e).hub.deps, Step(h, e).hub.installed)
  {
    var h' := Step(h, e).hub;
    StepKeepsInstalled(h, e);
    StepKeepsPlaces(h, e);
    OtherStepsKeepLive(h, e);
    hide Step, SagaInv;
    forall p | p in h'.installed ensures LivePlace(h'.deps, p) {
      assert LivePlace(h.deps, p);
      var d: nat, s: Side :| d < |h.deps| && Live(h.deps[d].lifecycle) && h.deps[d].Place(s) == p;
      assert h'.deps[d].Place(s) == p;
    }
  }

  lemma StepKeepsAgreeInv(plain: bool, h: Hub, e: Event)
    requires AgreeInv(plain, h)
    requires forall d :: 0 <= d < |h.deps| ==> Linked(h, d)
    requires Clean(plain, h, e)
    ensures AgreeInv(plain, Step(h, e).hub)
  {
    StepKeeps(h, e);
    StepKeepsInstalledInv(h, e);
    StepKeepsRowsAgreeing(plain, h, e);
    hide SagaInv, InstalledInv, RowsAgree, PartsEnds, Orderly;
    if Step(h, e).reply != Accepted {
      RefusedHasNoEffect(h, e);
    } else if e.DeliverEvent? {
      DeliveryKeepsAccounted(plain, h, e);
    } else {
      OtherStepsKeepAccounted(h, e);
    }
  }

  predicate CleanRun(plain: bool, h: Hub, events: seq<Event>)
    requires SagaInv(h)
  {
    events == [] ||
    (CleanRun(plain, h, events[..|events| - 1]) &&
     (LinksResolve(Run(h, events[..|events| - 1])); Clean(plain, Run(h, events[..|events| - 1]), events[|events| - 1])))
  }

  lemma {:induction false} AgreementOverRuns(plain: bool, h: Hub, events: seq<Event>)
    requires AgreeInv(plain, h) && CleanRun(plain, h, events)
    ensures AgreeInv(plain, Run(h, events))
  {
    if events != [] {
      var before, e := Run(h, events[..|events| - 1]), events[|events| - 1];
      AgreementOverRuns(plain, h, events[..|events| - 1]);
      LinksResolve(before);
      StepKeepsAgreeInv(plain, before, e);
    }
  }

  predicate AnotherHas(deps: seq<Deployment>, d: nat, s: Side)
    requires d < |deps|
  {
    exists e: nat, t: Side :: e < |deps| && e != d && Live(deps[e].lifecycle) && deps[e].Place(t) == deps[d].Place(s)
  }

  lemma AgreeingEnds(plain: bool, h: Hub, d: nat)
    requires AgreeInv(plain, h) && d < |h.deps| && Linked(h, d)
    ensures Settled(h, d) && Live(h.deps[d].lifecycle) ==> SameEnds(h.deps[d], h.installed)
    ensures h.deps[d].lifecycle.RolledBack? ==>
      forall s: Side :: h.deps[d].Place(s) in h.installed ==> AnotherHas(h.deps, d, s)
  {
    var row := h.deps[d];
    assert RowAgrees(plain, row, h.jobs, h.installed);
    hide SagaInv, InstalledInv;
    forall s: Side | row.lifecycle.RolledBack? && row.Place(s) in h.installed ensures AnotherHas(h.deps, d, s) {
      assert LivePlace(h.deps, row.Place(s));
    }
  }

  lemma PlainEnd(h: Hub, d: nat, s: Side)
    requires AgreeInv(true, h) && d < |h.deps| && Linked(h, d) && Settled(h, d) && Live(h.deps[d].lifecycle)
    ensures h.deps[d].Place(s) in h.installed <==> h.deps[d].lifecycle.Active? && StatusOf(h, d, s).Completed?
  {
    var row := h.deps[d];
    assert RowAgrees(true, row, h.jobs, h.installed) && RowOk(row, d, h.jobs) && SideTold(row, s, h.jobs, h.installed);
    hide SagaInv, InstalledInv, RowsAgree, Accounted;
    if s.Iran? {} else {}
  }

  /** Over plain runs: once the jobs of a live row are finished, its tunnel is on both nodes, the row being active and
      both deploys completed, or else on neither; where a rolled-back row's tunnel is installed, it is another live
      row's. */
  lemma EndsAgree(monitors: seq<Monitor>, events: seq<Event>, d: nat)
    requires CleanRun(true, Empty(monitors), events) && d < |RunFrom(monitors, events).deps|
    ensures var h := RunFrom(monitors, events);
      && (Settled(h, d) && Live(h.deps[d].lifecycle) ==>
            && SameEnds(h.deps[d], h.installed)
            && forall s: Side :: h.deps[d].Place(s) in h.installed <==>
                 h.deps[d].lifecycle.Active? && StatusOf(h, d, s).Completed?)
      && (h.deps[d].lifecycle.RolledBack? ==>
            forall s: Side :: h.deps[d].Place(s) in h.installed ==> AnotherHas(h.deps, d, s))
  {
    var h := RunFrom(monitors, events);
    AgreementOverRuns(true, Empty(monitors), events);
    AgreeingEnds(true, h, d);
    if Settled(h, d) && Live(h.deps[d].lifecycle) {
      PlainEnd(h, d, Iran);
      PlainEnd(h, d, Kharej);
    }
  }

  /** The ends also stay alike over runs that redeploy installed tunnels and on which failed jobs leave theirs, as long
      as no result is of the kind that parts them. */
  lemma EndsAgreeUnlessParted(monitors: seq<Monitor>, events: seq<Event>, d: nat)
    requires CleanRun(false, Empty(monitors), events) && d < |RunFrom(monitors, events).deps|
    ensures var h := RunFrom(monitors, events);
      && (Settled(h, d) && Live(h.deps[d].lifecycle) ==> SameEnds(h.deps[d], h.installed))
      && (h.deps[d].lifecycle.RolledBack? ==>
            forall s: Side :: h.deps[d].Place(s) in h.installed ==> AnotherHas(h.deps, d, s))
  {
    AgreementOverRuns(false, Empty(monitors), events);
    AgreeingEnds(false, RunFrom(monitors, events), d);
  }

  lemma OneOwner(deps: seq<Deployment>, d: nat, s: Side, e: nat, t: Side)
    requires NamesUnique(true, deps) && EndsApart(deps) && d < |deps| && e < |deps|
    requires Live(deps[d].lifecycle) && Live(deps[e].lifecycle)
    ensures deps[d].Place(s) == deps[e].Place(t) ==> e == d && t == s
  {
    assert deps[d].iranNode != deps[d].kharejNode;
    assert e != d ==> !Clash(true, deps[d], deps[e]) && !Clash(true, deps[e], deps[d]);
  }

  /** On plain runs, and on the others, every installed tunnel is that of one side of one live row. */
  lemma InstalledHasOneOwner(plain: bool, monitors: seq<Monitor>, events: seq<Event>, p: Tunnel)
      returns (d: nat, s: Side)
    requires CleanRun(plain, Empty(monitors), events) && p in RunFrom(monitors, events).installed
    ensures var deps := RunFrom(monitors, events).deps;
      && d < |deps| && Live(deps[d].lifecycle) && deps[d].Place(s) == p
      && forall e: nat, t: Side :: e < |deps| && Live(deps[e].lifecycle) && deps[e].Place(t) == p ==> e == d && t == s
  {
    AgreementOverRuns(plain, Empty(monitors), events);
    var h := RunFrom(monitors, events);
    assert LivePlace(h.deps, p);
    d, s :| d < |h.deps| && Live(h.deps[d].lifecycle) && h.deps[d].Place(s) == p;
    forall e: nat, t: Side | e < |h.deps| && Live(h.deps[e].lifecycle) && h.deps[e].Place(t) == p
      ensures e == d && t == s
    {
      OneOwner(h.deps, d, s, e, t);
    }
  }

  lemma ResultsQueueNoDeploys(h: Hub, e: Event)
    requires SagaInv(h) && e.DeliverEvent?
    requires forall d :: 0 <= d < |h.deps| ==> Linked(h, d)
    ensures FreshDeploysAreNeeded(h, Step(h, e).hub)
  {
    if Step(h, e).reply != Accepted {
      RefusedHasNoEffect(h, e);
    } else {
      var h1, status := DeliveryStages(h, e);
      ResultQueuesRemovals(h1, e.job, status);
      hide Step;
    }
  }

  lemma OthersQueueNoDeploys(h: Hub, e: Event)
    requires !e.DeliverEvent? && !e.RetryEvent? && !e.CreateEvent? && !e.ReconfigureEvent?
    requires forall d :: 0 <= d < |h.deps| ==> Linked(h, d)
    ensures FreshDeploysAreNeeded(h, Step(h, e).hub)
  {
    hide Settled, Deliver, Retry, Create;
    if e.QueueFleetEvent? { QueueItemsKind(h, e.op, |h.items|); }
  }

  lemma StepQueuesNeededDeploys(h: Hub, e: Event)
    requires AgreeInv(true, h)
    requires forall d :: 0 <= d < |h.deps| ==> Linked(h, d)
    requires Clean(true, h, e)
    ensures FreshDeploysAreNeeded(h, Step(h, e).hub)
  {
    hide RowsAgree, InstalledInv, SagaInv, Accounted, PartsEnds;
    if Step(h, e).reply != Accepted {
      RefusedHasNoEffect(h, e);
    } else if e.RetryEvent? {
      RetryQueuesNeeded(h, e.dep, e.permitted);
    } else if e.CreateEvent? {
      CreateKeepsAgreement(true, h, e);
    } else if e.ReconfigureEvent? {
      ReconfigureKeepsAgreement(true, h, e.dep);
    } else {
      hide Step, FreshDeploysAreNeeded;
      if e.DeliverEvent? { ResultsQueueNoDeploys(h, e); } else { OthersQueueNoDeploys(h, e); }
    }
  }

  /** On plain runs, where nothing installed is reconfigured and a failed job leaves nothing, every deploy that any
      transaction queues is for a tunnel that is not there. */
  lemma DeploysAreNeeded(monitors: seq<Monitor>, events: seq<Event>, e: Event)
    requires CleanRun(true, Empty(monitors), events + [e])
    ensures FreshDeploysAreNeeded(RunFrom(monitors, events), RunFrom(monitors, events + [e]))
  {
    assert (events + [e])[..|events|] == events;
    AgreementOverRuns(true, Empty(monitors), events);
    LinksResolve(RunFrom(monitors, events));
    StepQueuesNeededDeploys(RunFrom(monitors, events), e);
  }

  // ---- the conditions are exact ------------------------------------------------------------

  lemma NotAll(plain: bool, h: Hub, d: nat)
    requires d < |h.deps| && !RowAgrees(plain, h.deps[d], h.jobs, h.installed)
    ensures !RowsAgree(plain, h)
  {
  }

  lemma PartingResultParts(h: Hub, e: Event)
    requires AgreeInv(false, h) && e.DeliverEvent?
    requires forall d :: 0 <= d < |h.deps| ==> Linked(h, d)
    requires Step(h, e).reply == Accepted && PartsEnds(h, e)
    ensures !RowsAgree(false, Step(h, e).hub)
  {
    var h1, status := DeliveryWorks(h, e);
    var d, s := h.jobs[e.job].kind.dep, h.jobs[e.job].kind.side;
    assert RowAgrees(false, h.deps[d], h.jobs, h.installed);
    OwnJobEnded(h, h1, e, status, d, s);
    assert SideTold(h.deps[d], s.Other(), h.jobs, h.installed);
    PartsEndsExactly(false, h, h1, e, status, d, s);
    hide DeploymentEffect, SagaInv, InstalledInv, RowAgrees, PartsEnds, EndedWell, Ended, Worked, Accounted,
      RowsAgree, Step;
    if h.deps[d].lifecycle.Active? && Split(h1, d) {
      SplitRowAgrees(false, h, h1, e, status, d, s);
    } else {
      UnsplitRowParts(h, h1, e, status, d, s);
    }
    NotAll(false, DeploymentEffect(h1, e.job, status), d);
  }

  /** An accepted result ends the agreement exactly when it parts its row's ends. */
  lemma ResultKeepsAgreementExactly(h: Hub, e: Event)
    requires AgreeInv(false, h) && e.DeliverEvent?
    requires forall d :: 0 <= d < |h.deps| ==> Linked(h, d)
    requires Step(h, e).reply == Accepted
    ensures RowsAgree(false, Step(h, e).hub) <==> !PartsEnds(h, e)
  {
    hide RowsAgree, InstalledInv, SagaInv, Accounted, PartsEnds;
    if PartsEnds(h, e) { PartingResultParts(h, e); } else { DeliveryKeepsRows(false, h, e); }
  }

  /** A retry that revives no taken name keeps the agreement exactly when it skips no completed removal. */
  lemma RetryKeepsAgreementExactly(plain: bool, h: Hub, d: nat, permitted: bool)
    requires AgreeInv(plain, h) && !RevivesTakenName(true, h, RetryEvent(d, true))
    requires Linked(h, d) && Retriable(h, d, permitted)
    ensures RowsAgree(plain, Retry(h, d, permitted).hub) <==>
      h.deps[d].lifecycle.RolledBack? || forall s: Side :: !SkippedRemoval(h, d, s)
  {
    if h.deps[d].lifecycle.RolledBack? || forall s: Side :: !SkippedRemoval(h, d, s) {
      RetryKeepsAgreement(plain, h, d, permitted);
    } else {
      var s: Side :| SkippedRemoval(h, d, s);
      RetriedSide(h, d, permitted, s);
      hide Retry, Retriable, AgreeInv, RowsAgree;
      var h' := Retry(h, d, permitted).hub;
      assert !SideAgrees(plain, h'.deps[d], s, h'.jobs, h'.installed);
      NotAll(plain, h', d);
    }
  }

  /** A tunnel left by a failed job shows in its row. */
  lemma LeftTunnelShows(h: Hub, e: Event)
    requires AgreeInv(true, h) && LeavesTunnel(h, e)
    requires forall d :: 0 <= d < |h.deps| ==> Linked(h, d)
    ensures !RowsAgree(true, Step(h, e).hub)
  {
    var h1, status := DeliveryWorks(h, e);
    var d, s := h.jobs[e.job].kind.dep, h.jobs[e.job].kind.side;
    assert h.deps[d].JobOf(s) == e.job;
    assert RowAgrees(true, h.deps[d], h.jobs, h.installed) && SideTold(h.deps[d], s.Other(), h.jobs, h.installed);
    OwnJobEnded(h, h1, e, status, d, s);
    LinkedTarget(h, d, s);
    PartsEndsExactly(true, h, h1, e, status, d, s);
    assert h.deps[d].Place(s) in h1.installed;
    hide DeploymentEffect, SagaInv, InstalledInv, RowAgrees, EndedWell, Accounted, RowsAgree, Step, Target;
    if h.deps[d].lifecycle.Active? && Split(h1, d) {
      SplitRowAgrees(true, h, h1, e, status, d, s);
      assert StatusOf(h1, d, s) == Failed;
    } else {
      LeftTunnelStays(h, h1, e, status, d, s);
    }
    NotAll(true, DeploymentEffect(h1, e.job, status), d);
  }

  lemma LeftTunnelStays(h: Hub, h1: Hub, e: Event, status: Status, d: nat, s: Side)
    requires Ended(h, h1, e, status, d, s) && status.Failed? && h.deps[d].Place(s) in h1.installed
    requires forall d :: 0 <= d < |h1.deps| ==> Linked(h1, d)
    requires FirstLinked(h1.deps, e.job) == Some(d) && (h.deps[d].lifecycle.Active? ==> !Split(h1, d))
    ensures var h' := DeploymentEffect(h1, e.job, status);
      d < |h'.deps| && !RowAgrees(true, h'.deps[d], h'.jobs, h'.installed)
  {
    UnsplitRow(h1, e.job, status, d);
    var h' := DeploymentEffect(h1, e.job, status);
    hide DeploymentEffect;
    assert !SideAgrees(true, h'.deps[d], s, h'.jobs, h'.installed);
  }

  lemma RedeployShows(h: Hub, d: nat)
    requires d < |h.deps| && Linked(h, d) && h.deps[d].lifecycle.Active?
    requires h.deps[d].Place(Iran) in h.installed || h.deps[d].Place(Kharej) in h.installed
    ensures !RowsAgree(true, QueueBoth(h, d, false))
  {
    var h' := QueueBoth(h, d, false);
    var s := if h.deps[d].Place(Iran) in h.installed then Iran else Kharej;
    assert !SideAgrees(true, h'.deps[d], s, h'.jobs, h'.installed);
    NotAll(true, h', d);
  }

  /** What is clean on plain runs is clean: results never part the ends there. */
  lemma PlainIsClean(h: Hub, e: Event)
    requires AgreeInv(true, h) && Clean(true, h, e)
    requires forall d :: 0 <= d < |h.deps| ==> Linked(h, d)
    ensures Clean(false, h, e)
  {
    if PartsEnds(h, e) {
      var h1, status := DeliveryWorks(h, e);
      var d, s := h.jobs[e.job].kind.dep, h.jobs[e.job].kind.side;
      assert RowAgrees(true, h.deps[d], h.jobs, h.installed) && SideTold(h.deps[d], s.Other(), h.jobs, h.installed);
      OwnJobEnded(h, h1, e, status, d, s);
      hide SagaInv, InstalledInv, RowAgrees, Ended, PartsEnds, LeavesTunnel, SideTold, Worked;
      PlainNeverParts(h, h1, e, status, d, s);
    }
  }

  /** No condition of plain runs can be spared: an orderly step keeps what rows tell exactly when it meets them. */
  lemma PlainStepsExactly(h: Hub, e: Event)
    requires AgreeInv(true, h)
    requires forall d :: 0 <= d < |h.deps| ==> Linked(h, d)
    requires Orderly(h, e)
    ensures RowsAgree(true, Step(h, e).hub) <==> Clean(true, h, e)
  {
    hide RowsAgree, InstalledInv, SagaInv, Accounted;
    if Clean(true, h, e) {
      StepKeepsRowsAgreeing(true, h, e);
    } else if LeavesTunnel(h, e) {
      LeftTunnelShows(h, e);
    } else if RedeploysInstalled(h, e) {
      RedeployShows(h, e.dep);
    } else {
      RetryKeepsAgreementExactly(true, h, e.dep, e.permitted);
    }
  }

  /** On a row that agrees, the result of a compensating removal keeps the ends alike exactly when the tunnel is
      gone. */
  lemma FailedRollbackSplitsTheEnds(h: Hub, e: Event, d: nat)
    requires AgreeInv(false, h) && d < |h.deps| && h.deps[d].lifecycle.RollingBack?
    requires forall d :: 0 <= d < |h.deps| ==> Linked(h, d)
    requires e.DeliverEvent? && Links(h.deps[d], e.job) && Step(h, e).reply == Accepted
    ensures var s := if h.deps[d].iranJob == e.job then Iran else Kharej;
      SameEnds(h.deps[d], Step(h, e).hub.installed) <==>
      e.completed || !e.left || h.deps[d].Place(s) !in h.installed
  {
    var row := h.deps[d];
    assert RowAgrees(false, row, h.jobs, h.installed) && RowOk(row, d, h.jobs);
    var h1, status := DeliveryWorks(h, e);
    var s := if row.iranJob == e.job then Iran else Kharej;
    OwnJobEnded(h, h1, e, status, d, s);
    assert Compensating(row, d, h.jobs, s, {Queued, Running});
    assert SideAgrees(false, row, s.Other(), h.jobs, h.installed);
    hide SagaInv, InstalledInv, RowsAgree, Step, RowAgrees;
  }

  /** And the rollback of a redeployment whose old tunnels are both there parts the ends exactly when it takes one. */
  lemma RollbackOfRedeploySplitsTheEnds(h: Hub, e: Event, d: nat)
    requires SagaInv(h) && EndsApart(h.deps) && d < |h.deps| && h.deps[d].lifecycle.RollingBack?
    requires h.deps[d].Place(Iran) in h.installed && h.deps[d].Place(Kharej) in h.installed
    requires forall d :: 0 <= d < |h.deps| ==> Linked(h, d)
    requires e.DeliverEvent? && Links(h.deps[d], e.job) && Step(h, e).reply == Accepted
    ensures SameEnds(h.deps[d], Step(h, e).hub.installed) <==> !e.completed && e.left
  {
    var row := h.deps[d];
    assert RowOk(row, d, h.jobs);
    var h1, status := DeliveryWorks(h, e);
    var s := if row.iranJob == e.job then Iran else Kharej;
    OwnJobEnded(h, h1, e, status, d, s);
    assert Compensating(row, d, h.jobs, s, {Queued, Running});
    hide SagaInv, Step;
  }
}
