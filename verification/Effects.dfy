/** The rows that job results write elsewhere: one check row and one fleet-item update per job. */
module Effects {
  import opened Common
  import opened JobQueue
  import opened FleetItems
  import opened HubState
  import opened Saga
  import opened ExactlyOnce

  // ---- synthetic monitors --------------------------------------------------------

  /** Finished monitor_run jobs of monitor `m`, on the node the monitor belongs to. */
  function FinishedRuns(jobs: seq<Job>, m: nat, node: nat): set<nat> {
    set j | 0 <= j < |jobs| && jobs[j].kind == MonitorRun(m) && jobs[j].node == node && jobs[j].status.Terminal()
  }

  predicate Wrote(checks: seq<Check>, m: nat, j: nat) {
    exists i :: 0 <= i < |checks| && checks[i].monitor == m && checks[i].job == j
  }

  /** Length of the trailing run of failed checks of monitor `m`. */
  function FailingTail(checks: seq<Check>, m: nat): nat {
    if checks == [] then 0
    else
      var last, rest := checks[|checks| - 1], checks[..|checks| - 1];
      if last.monitor != m then FailingTail(rest, m) else if last.up then 0 else FailingTail(rest, m) + 1
  }

  /** What the last check of monitor `m` saw. */
  function LastSeen(checks: seq<Check>, m: nat): Option<bool> {
    if checks == [] then None
    else
      var last, rest := checks[|checks| - 1], checks[..|checks| - 1];
      if last.monitor == m then Some(last.up) else LastSeen(rest, m)
  }

  /** Each finished run of the monitor has written one check row, each row stems from a finished run, and a row says
      "up" only if that run completed; the streak counts the trailing rows that do not, and the last row tells whether
      it is up. */
  ghost predicate MonitorOk(h: Hub, m: nat)
    requires m < |h.monitors|
  {
    && (forall j :: Wrote(h.checks, m, j) <==> j in FinishedRuns(h.jobs, m, h.monitors[m].node))
    && (forall i, k :: 0 <= i < k < |h.checks| && h.checks[i].monitor == m && h.checks[k].monitor == m ==>
         h.checks[i].job != h.checks[k].job)
    && (forall i :: 0 <= i < |h.checks| && h.checks[i].monitor == m && h.checks[i].up ==>
         h.checks[i].job < |h.jobs| && h.jobs[h.checks[i].job].status.Completed?)
    && h.monitors[m].streak == FailingTail(h.checks, m) && h.monitors[m].up == LastSeen(h.checks, m)
  }

  ghost predicate MonitorsOk(h: Hub) { forall m :: 0 <= m < |h.monitors| ==> MonitorOk(h, m) }

  lemma FinishedRunsAfter(jobs: seq<Job>, jobs1: seq<Job>, j: nat, status: Status, m: nat, node: nat)
    requires TurnsTerminal(jobs, jobs1, j, status)
    ensures j !in FinishedRuns(jobs, m, node)
    ensures FinishedRuns(jobs1, m, node) ==
      FinishedRuns(jobs, m, node) + (if jobs[j].kind == MonitorRun(m) && jobs[j].node == node then {j} else {})
  {
  }

  lemma ChecksAfter(checks: seq<Check>, c: Check, m: nat)
    ensures forall j :: Wrote(checks + [c], m, j) <==> Wrote(checks, m, j) || (c.monitor == m && c.job == j)
    ensures FailingTail(checks + [c], m) ==
      if c.monitor != m then FailingTail(checks, m) else if c.up then 0 else FailingTail(checks, m) + 1
    ensures LastSeen(checks + [c], m) == if c.monitor == m then Some(c.up) else LastSeen(checks, m)
  {
    var longer := checks + [c];
    assert longer[..|checks|] == checks && longer[|checks|] == c;
    forall j ensures Wrote(longer, m, j) <==> Wrote(checks, m, j) || (c.monitor == m && c.job == j) {
      if Wrote(checks, m, j) {
        var i :| 0 <= i < |checks| && checks[i].monitor == m && checks[i].job == j;
        assert longer[i] == checks[i];
      }
    }
  }

  /** No row of the monitor stems from a run that had not finished. */
  lemma NewRunIsNew(h: Hub, j: nat, m: nat)
    requires m < |h.monitors| && MonitorOk(h, m) && j < |h.jobs| && !h.jobs[j].status.Terminal()
    ensures forall i :: 0 <= i < |h.checks| && h.checks[i].monitor == m ==> h.checks[i].job != j
  {
    if i :| 0 <= i < |h.checks| && h.checks[i].monitor == m && h.checks[i].job == j {
      assert Wrote(h.checks, m, j);
    }
  }

  /** `up` is what the handler makes of the report: never up for a failed job. */
  ghost predicate ResultRecorded(h: Hub, h1: Hub, j: nat, status: Status, up: bool) {
    && TurnsTerminal(h.jobs, h1.jobs, j, status) && (up ==> status.Completed?)
    && h1.(jobs := h.jobs) ==
       if h.jobs[j].kind.MonitorRun? then MonitorEffect(h, h.jobs[j].kind.monitor, h.jobs[j].node, up, j) else h
  }

  lemma OwnRunAddsOne(h: Hub, h1: Hub, j: nat, status: Status, up: bool, m: nat)
    requires m < |h.monitors| && MonitorOk(h, m) && ResultRecorded(h, h1, j, status, up)
    requires h.jobs[j].kind == MonitorRun(m) && h.jobs[j].node == h.monitors[m].node
    ensures MonitorOk(h1, m)
  {
    FinishedRunsAfter(h.jobs, h1.jobs, j, status, m, h.monitors[m].node);
    NewRunIsNew(h, j, m);
    ChecksAfter(h.checks, Check(m, up, j), m);
    hide FinishedRuns, FailingTail, LastSeen, Wrote;
    assert h1.checks == h.checks + [Check(m, up, j)];
  }

  /** A finished job that wrote no row. */
  lemma NoRowAdded(h: Hub, h1: Hub, j: nat, status: Status, m: nat)
    requires m < |h.monitors| && MonitorOk(h, m) && TurnsTerminal(h.jobs, h1.jobs, j, status)
    requires h.jobs[j].kind != MonitorRun(m) || h.jobs[j].node != h.monitors[m].node
    requires m < |h1.monitors| && h1.monitors[m] == h.monitors[m] && h1.checks == h.checks
    ensures MonitorOk(h1, m)
  {
    FinishedRunsAfter(h.jobs, h1.jobs, j, status, m, h.monitors[m].node);
    hide FinishedRuns, FailingTail, LastSeen, Wrote;
  }

  /** One that wrote a row of another monitor. */
  lemma OtherRowAdded(h: Hub, h1: Hub, j: nat, status: Status, c: Check, m: nat)
    requires m < |h.monitors| && MonitorOk(h, m) && TurnsTerminal(h.jobs, h1.jobs, j, status)
    requires h.jobs[j].kind != MonitorRun(m) || h.jobs[j].node != h.monitors[m].node
    requires m < |h1.monitors| && h1.monitors[m] == h.monitors[m] && h1.checks == h.checks + [c] && c.monitor != m
    ensures MonitorOk(h1, m)
  {
    FinishedRunsAfter(h.jobs, h1.jobs, j, status, m, h.monitors[m].node);
    ChecksAfter(h.checks, c, m);
    hide FinishedRuns, FailingTail, LastSeen, Wrote;
  }

  lemma OtherJobAddsNone(h: Hub, h1: Hub, j: nat, status: Status, up: bool, m: nat)
    requires m < |h.monitors| && MonitorOk(h, m) && ResultRecorded(h, h1, j, status, up)
    requires h.jobs[j].kind != MonitorRun(m) || h.jobs[j].node != h.monitors[m].node
    ensures MonitorOk(h1, m)
  {
    hide MonitorOk;
    if h1.checks == h.checks {
      NoRowAdded(h, h1, j, status, m);
    } else {
      OtherRowAdded(h, h1, j, status, Check(h.jobs[j].kind.monitor, up, j), m);
    }
  }

  lemma MonitorEffectAddsOne(h: Hub, h1: Hub, j: nat, status: Status, up: bool, m: nat)
    requires m < |h.monitors| && MonitorOk(h, m) && ResultRecorded(h, h1, j, status, up)
    ensures MonitorOk(h1, m)
  {
    hide MonitorOk;
    if h.jobs[j].kind == MonitorRun(m) && h.jobs[j].node == h.monitors[m].node {
      OwnRunAddsOne(h, h1, j, status, up, m);
    } else {
      OtherJobAddsNone(h, h1, j, status, up, m);
    }
  }

  lemma UnfinishedRunsKeepMonitors(h: Hub, h': Hub)
    requires MonitorsOk(h) && h'.monitors == h.monitors && h'.checks == h.checks
    requires Evolved(h.jobs, h'.jobs) && NewOnesQueued(h'.jobs, |h.jobs|)
    requires forall k :: 0 <= k < |h.jobs| ==> h'.jobs[k].status.Terminal() == h.jobs[k].status.Terminal()
    ensures MonitorsOk(h')
  {
    forall m | 0 <= m < |h'.monitors| ensures MonitorOk(h', m) {
      assert MonitorOk(h, m);
      assert FinishedRuns(h'.jobs, m, h.monitors[m].node) == FinishedRuns(h.jobs, m, h.monitors[m].node);
    }
  }

  lemma DeliveryKeepsMonitors(h: Hub, j: nat, status: Status, up: bool, left: bool, h1: Hub, h2: Hub)
    requires MonitorsOk(h) && Delivery(h, j, status, up, left, h1, h2)
    ensures MonitorsOk(h2)
  {
    var bare := h1.(deps := h.deps, installed := h.installed, items := h.items, ops := h.ops);
    forall m | 0 <= m < |h1.monitors| ensures MonitorOk(bare, m) {
      assert MonitorOk(h, m);
      MonitorEffectAddsOne(h, bare, j, status, status.Completed? && up, m);
    }
    UnfinishedRunsKeepMonitors(bare, h2);
  }

  lemma QueueItemsFrame(h: Hub, op: nat, upTo: nat)
    requires upTo <= |h.items|
    ensures var r := QueueItems(h, op, upTo);
      r.monitors == h.monitors && r.checks == h.checks && r.installed == h.installed
  {
  }

  lemma OtherStepsLeaveMonitors(h: Hub, e: Event)
    requires forall d :: 0 <= d < |h.deps| ==> Linked(h, d)
    requires !e.DeliverEvent?
    ensures Step(h, e).hub.monitors == h.monitors && Step(h, e).hub.checks == h.checks
  {
    if e.QueueFleetEvent? { QueueItemsFrame(h, e.op, |h.items|); }
  }

  lemma StepKeepsMonitors(h: Hub, e: Event)
    requires SagaInv(h) && MonitorsOk(h)
    requires forall d :: 0 <= d < |h.deps| ==> Linked(h, d)
    ensures MonitorsOk(Step(h, e).hub)
  {
    if Step(h, e).reply != Accepted {
      RefusedHasNoEffect(h, e);
    } else if e.DeliverEvent? {
      var h1, status := DeliveryStages(h, e);
      DeliveryKeepsMonitors(h, e.job, status, e.reportUp, e.left, h1, Step(h, e).hub);
    } else {
      StepEvolves(h, e);
      OtherStepsLeaveMonitors(h, e);
      UnfinishedRunsKeepMonitors(h, Step(h, e).hub);
    }
  }

  /** However jobs are requeued, claimed again and redelivered, each finished run of a monitor has written exactly one
      check row, and the streak counts the rows ever written. */
  lemma {:induction false} OneCheckPerRun(h: Hub, events: seq<Event>)
    requires SagaInv(h) && MonitorsOk(h)
    ensures MonitorsOk(Run(h, events))
  {
    if events != [] {
      var before := Run(h, events[..|events| - 1]);
      OneCheckPerRun(h, events[..|events| - 1]);
      LinksResolve(before);
      StepKeepsMonitors(before, events[|events| - 1]);
    }
  }

  /** The job of a requested run stays that run, and it has written its row exactly once it is finished. */
  lemma RequestedRunIsRecorded(h: Hub, node: nat, m: nat, later: seq<Event>)
    requires SagaInv(h) && MonitorsOk(h) && m < |h.monitors| && h.monitors[m].node == node
    requires forall d :: 0 <= d < |h.deps| ==> Linked(h, d)
    ensures SagaInv(Step(h, InsertEvent(node, Some(m))).hub)
    ensures var j, now := |h.jobs|, Run(Step(h, InsertEvent(node, Some(m))).hub, later);
      && j < |now.jobs| && now.jobs[j].kind == MonitorRun(m)
      && (Wrote(now.checks, m, j) <==> now.jobs[j].status.Terminal())
  {
    var e := InsertEvent(node, Some(m));
    var j, h1 := |h.jobs|, Step(h, e).hub;
    StepKeeps(h, e);
    StepKeepsMonitors(h, e);
    assert h1.jobs[j] == NewJob(node, MonitorRun(m));
    OneCheckPerRun(h1, later);
    TerminalForever(h1, later);
    MonitorsStay(h1, later);
    assert MonitorOk(Run(h1, later), m);
  }

  /** Monitors keep their nodes, and check rows are never changed. */
  lemma {:induction false} MonitorsStay(h: Hub, events: seq<Event>)
    requires SagaInv(h)
    ensures var now := Run(h, events);
      && |now.monitors| == |h.monitors| && h.checks <= now.checks
      && forall m :: 0 <= m < |h.monitors| ==> now.monitors[m].node == h.monitors[m].node
  {
    if events != [] {
      var before, e := Run(h, events[..|events| - 1]), events[|events| - 1];
      MonitorsStay(h, events[..|events| - 1]);
      LinksResolve(before);
      if Step(before, e).reply != Accepted {
        RefusedHasNoEffect(before, e);
      } else if e.DeliverEvent? {
        var _, _ := DeliveryStages(before, e);
      } else {
        OtherStepsLeaveMonitors(before, e);
      }
    }
  }

  /** The result of a monitor's run writes one row: up exactly if the job completed and its report says so. */
  lemma CheckTellsTheReport(h: Hub, e: Event, later: seq<Event>)
    requires SagaInv(h) && e.DeliverEvent? && e.job < |h.jobs| && h.jobs[e.job].kind.MonitorRun?
    requires forall d :: 0 <= d < |h.deps| ==> Linked(h, d)
    requires Step(h, e).reply == Accepted
    ensures SagaInv(Step(h, e).hub)
    ensures var m := h.jobs[e.job].kind.monitor;
      m < |h.monitors| && h.monitors[m].node == e.node ==>
        h.checks + [Check(m, e.completed && e.reportUp, e.job)] <= Run(Step(h, e).hub, later).checks
  {
    StepKeeps(h, e);
    var _, _ := DeliveryStages(h, e);
    MonitorsStay(Step(h, e).hub, later);
  }

  // ---- job-driven fleet operations -----------------------------------------------

  predicate ItemOk(h: Hub, i: nat)
    requires i < |h.items|
  {
    var item := h.items[i];
    && item.op < |h.ops|
    && match item.job
       case None => item.status == (if h.ops[item.op].OpCancelled? then Dropped else Scheduled) &&
         !Started(h.ops[item.op])
       case Some(j) =>
         && j < |h.jobs| && h.jobs[j].kind == Misc && h.jobs[j].node == item.node
         && item.status == ItemStatusOf(h.jobs[j].status) && Started(h.ops[item.op])
  }

  predicate Started(op: OpStatus) { !op.OpScheduled? && !op.OpCancelled? }

  predicate JobsDistinct(items: seq<Item>) {
    forall i, k :: 0 <= i < k < |items| && items[i].job.Some? ==> items[i].job != items[k].job
  }

  predicate ItemsOk(h: Hub) {
    && (forall i :: 0 <= i < |h.items| ==> ItemOk(h, i))
    && JobsDistinct(h.items)
  }

  predicate OpOk(h: Hub, op: nat)
    requires op < |h.ops|
  {
    Started(h.ops[op]) ==> h.ops[op] == Finalized(h.items, op, OpRunning)
  }

  /** Every item mirrors its job, and every started operation has the status its items call for. */
  predicate FleetOk(h: Hub) {
    ItemsOk(h) && forall op :: 0 <= op < |h.ops| ==> OpOk(h, op)
  }

  /** Items of a started operation are never cancelled, so its final status is not either. */
  lemma StartedStaysStarted(h: Hub, items': seq<Item>, i: nat)
    requires FleetOk(h) && i < |h.items| && h.items[i].op < |h.ops| && Started(h.ops[h.items[i].op]) &&
      |items'| == |h.items|
    requires forall k :: 0 <= k < |items'| && k != i ==> items'[k] == h.items[k]
    requires items'[i].status != Dropped
    ensures Started(Finalized(items', h.items[i].op, OpRunning))
  {
    var op := h.items[i].op;
    forall k | 0 <= k < |items'| && items'[k].op == op ensures items'[k].status != Dropped {
      if k != i { assert ItemOk(h, k); }
    }
  }

  lemma FleetEffectKeeps(h: Hub, h1: Hub, j: nat, status: Status)
    requires FleetOk(h) && TurnsTerminal(h.jobs, h1.jobs, j, status)
    requires var f := FleetEffect(h, j, status); h1.items == f.items && h1.ops == f.ops
    ensures FleetOk(h1)
  {
    match FirstItem(h.items, j)
    case None =>
      forall i | 0 <= i < |h1.items| ensures ItemOk(h1, i) { assert ItemOk(h, i); }
      forall op | 0 <= op < |h1.ops| ensures OpOk(h1, op) { assert OpOk(h, op); }
    case Some(i) =>
      assert ItemOk(h, i);
      StartedStaysStarted(h, h1.items, i);
      assert OpOk(h, h.items[i].op);
      forall k | 0 <= k < |h1.items| ensures ItemOk(h1, k) { assert ItemOk(h, k); }
      forall op | 0 <= op < |h1.ops| ensures OpOk(h1, op) {
        assert OpOk(h, op);
        if op != h.items[i].op { SameItems(h.items, h1.items, op, OpRunning); }
      }
  }

  lemma SameItems(items: seq<Item>, items': seq<Item>, op: nat, current: OpStatus)
    requires |items| <= |items'|
    requires forall i :: 0 <= i < |items| ==> items'[i].op == items[i].op
    requires forall i :: 0 <= i < |items| && items[i].op == op ==> items'[i] == items[i]
    requires forall i :: |items| <= i < |items'| ==> items'[i].op != op
    ensures Finalized(items', op, current) == Finalized(items, op, current)
  {
    assert HasItems(items, op) ==> HasItems(items', op) by {
      if i :| 0 <= i < |items| && items[i].op == op { assert items'[i].op == op; }
    }
    forall status | AnyItem(items, op, status) ensures AnyItem(items', op, status) {
      var i :| 0 <= i < |items| && items[i].op == op && items[i].status == status;
      assert items'[i] == items[i];
    }
    assert AllTerminal(items', op) ==> AllTerminal(items, op);
  }

  /** Fleet rows only look at the kind and finality of the jobs they name. */
  lemma FleetFrame(h: Hub, h': Hub)
    requires FleetOk(h) && h'.items == h.items && h'.ops == h.ops
    requires |h.jobs| <= |h'.jobs|
    requires forall k :: 0 <= k < |h.jobs| ==>
      && h'.jobs[k].kind == h.jobs[k].kind && h'.jobs[k].node == h.jobs[k].node
      && ItemStatusOf(h'.jobs[k].status) == ItemStatusOf(h.jobs[k].status)
    ensures FleetOk(h')
  {
    forall i | 0 <= i < |h'.items| ensures ItemOk(h', i) { assert ItemOk(h, i); }
    forall op | 0 <= op < |h'.ops| ensures OpOk(h', op) { assert OpOk(h, op); }
  }

  /** The items of the operation before `upTo` have jobs, the others are as before. */
  ghost predicate Given(h: Hub, r: Hub, op: nat, upTo: nat) {
    && |r.items| == |h.items| && JobsDistinct(r.items)
    && (forall i :: 0 <= i < |r.items| && r.items[i].job.Some? ==> r.items[i].job.value < |r.jobs|)
    && (forall i :: 0 <= i < |r.items| && (i >= upTo || h.items[i].op != op) ==> r.items[i] == h.items[i])
    && (forall i :: 0 <= i < upTo <= |h.items| && h.items[i].op == op ==>
          && r.items[i].job.Some? && r.items[i] == h.items[i].(job := r.items[i].job, status := ItemQueued)
          && r.jobs[r.items[i].job.value] == NewJob(h.items[i].node, Misc))
  }

  lemma QueueItemGives(h: Hub, r: Hub, op: nat, i: nat)
    requires Given(h, r, op, i) && i < |h.items| && (h.items[i].op == op ==> h.items[i].job.None?)
    ensures Given(h, QueueItem(r, op, i), op, i + 1)
  {
    var r' := QueueItem(r, op, i);
    assert r.items[i] == h.items[i];
    assert |r.jobs| <= |r'.jobs| && r'.jobs[..|r.jobs|] == r.jobs;
    forall k | 0 <= k <= i && h.items[k].op == op
      ensures r'.items[k].job.Some? && r'.jobs[r'.items[k].job.value] == NewJob(h.items[k].node, Misc)
    {
      if k < i { assert r'.items[k] == r.items[k]; }
    }
  }

  lemma {:induction false} QueueItemsGives(h: Hub, op: nat, upTo: nat)
    requires ItemsOk(h) && upTo <= |h.items| && op < |h.ops| && h.ops[op].OpScheduled?
    ensures Given(h, QueueItems(h, op, upTo), op, upTo)
  {
    if upTo == 0 {
      forall i | 0 <= i < |h.items| && h.items[i].job.Some? ensures h.items[i].job.value < |h.jobs| {
        assert ItemOk(h, i);
      }
    } else {
      QueueItemsGives(h, op, upTo - 1);
      assert ItemOk(h, upTo - 1);
      QueueItemGives(h, QueueItems(h, op, upTo - 1), op, upTo - 1);
    }
  }

  lemma QueueFleetKeeps(h: Hub, op: nat)
    requires FleetOk(h)
    ensures FleetOk(QueueFleet(h, op))
  {
    if op < |h.ops| && h.ops[op].OpScheduled? {
      var h' := QueueFleet(h, op);
      QueueItemsGives(h, op, |h.items|);
      QueueItemsAppends(h, op, |h.items|);
      forall i | 0 <= i < |h'.items| ensures ItemOk(h', i) { assert ItemOk(h, i); }
      forall o | 0 <= o < |h'.ops| ensures OpOk(h', o) {
        assert OpOk(h, o);
        if o != op { SameItems(h.items, h'.items, o, OpRunning); }
      }
    }
  }

  lemma CreateFleetKeeps(h: Hub, nodes: seq<nat>)
    requires FleetOk(h)
    ensures FleetOk(CreateFleet(h, nodes))
  {
    var h' := CreateFleet(h, nodes);
    forall i | 0 <= i < |h'.items| ensures ItemOk(h', i) { if i < |h.items| { assert ItemOk(h, i); } }
    forall op | 0 <= op < |h'.ops| ensures OpOk(h', op) {
      if op < |h.ops| {
        assert OpOk(h, op);
        SameItems(h.items, h'.items, op, OpRunning);
      }
    }
  }

  lemma CancelFleetKeeps(h: Hub, op: nat)
    requires FleetOk(h)
    ensures FleetOk(CancelFleet(h, op))
  {
    var h' := CancelFleet(h, op);
    forall i | 0 <= i < |h'.items| ensures ItemOk(h', i) { assert ItemOk(h, i); }
    forall o | 0 <= o < |h'.ops| ensures OpOk(h', o) {
      assert OpOk(h, o);
      if o != op { SameItems(h.items, h'.items, o, OpRunning); }
    }
  }

  lemma StepKeepsFleet(h: Hub, e: Event)
    requires SagaInv(h) && FleetOk(h)
    requires forall d :: 0 <= d < |h.deps| ==> Linked(h, d)
    ensures FleetOk(Step(h, e).hub)
  {
    hide FleetOk, SagaInv;
    if e.DeliverEvent? && Step(h, e).reply == Accepted {
      var h1, status := DeliveryStages(h, e);
      FleetEffectKeeps(h, h1, e.job, status);
      FleetFrame(h1, Step(h, e).hub);
    } else if e.DeliverEvent? {
      RefusedHasNoEffect(h, e);
    } else if e.QueueFleetEvent? {
      QueueFleetKeeps(h, e.op);
    } else if e.CreateFleetEvent? {
      CreateFleetKeeps(h, e.nodes);
    } else if e.CancelFleetEvent? {
      CancelFleetKeeps(h, e.op);
    } else {
      StepEvolves(h, e);
      FleetFrame(h, Step(h, e).hub);
    }
  }

  lemma {:induction false} FleetMirrorsJobs(h: Hub, events: seq<Event>)
    requires SagaInv(h) && FleetOk(h)
    ensures FleetOk(Run(h, events))
  {
    if events != [] {
      var before := Run(h, events[..|events| - 1]);
      FleetMirrorsJobs(h, events[..|events| - 1]);
      LinksResolve(before);
      StepKeepsFleet(before, events[|events| - 1]);
    }
  }
}
