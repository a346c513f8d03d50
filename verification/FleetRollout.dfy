/** An Agent upgrade in progress: the orchestrator, its items and operator cancellation interleave.

    Each step is one transaction. `place[i]` is the batch of item i. */
module FleetRollout {
  import opened Common
  import opened FleetItems
  import opened RolloutPlan

  datatype Plan = Plan(batches: seq<seq<Entry>>, place: seq<nat>, stopOnFailure: bool, op: nat)

  /** About to look at a batch, waiting for its items, or returned after starting so many batches. */
  datatype Control = Next(batch: nat) | Gathering(batch: nat) | Returned(started: nat)

  /** `idleCancel` is history: a cancellation was accepted while no item was running. */
  datatype Rollout = Rollout(items: seq<Item>, status: OpStatus, control: Control, idleCancel: bool)

  datatype Step = StartBatch | FinishItem(item: nat, ok: bool) | AfterGather | Cancel

  // ---- the batch of each item --------------------------------------------------------

  function At(batches: seq<seq<Entry>>, item: nat): nat {
    if batches == [] || InBatch(batches, 0, item) then 0 else 1 + At(batches[1..], item)
  }

  lemma {:induction false} AtIsItsBatch(batches: seq<seq<Entry>>, b: nat, item: nat)
    requires InBatch(batches, b, item) && forall c: nat :: InBatch(batches, c, item) ==> c == b
    ensures At(batches, item) == b
  {
    if b > 0 {
      var rest := batches[1..];
      assert forall c: nat :: InBatch(rest, c, item) <==> InBatch(batches, c + 1, item);
      AtIsItsBatch(rest, b - 1, item);
    }
  }

  function MakePlan(batches: seq<seq<Entry>>, nodes: nat, stopOnFailure: bool, op: nat): Plan {
    Plan(batches, seq(nodes, i requires 0 <= i < nodes => At(batches, i)), stopOnFailure, op)
  }

  predicate HasPlace(p: Plan, b: nat) { exists i :: 0 <= i < |p.place| && p.place[i] == b }

  ghost predicate WellPlanned(p: Plan) {
    && (forall i :: 0 <= i < |p.place| ==> p.place[i] < |p.batches|)
    && (forall b: nat :: b < |p.batches| ==> HasPlace(p, b))
    && (forall b: nat, i: nat :: InBatch(p.batches, b, i) <==> i < |p.place| && p.place[i] == b)
  }

  lemma UpgradePlanIsWell(nodes: nat, canary: nat, size: nat, stopOnFailure: bool, op: nat)
    requires canary < nodes && size >= 1
    ensures WellPlanned(MakePlan(UpgradeBatches(nodes, canary, size), nodes, stopOnFailure, op))
  {
    var batches := UpgradeBatches(nodes, canary, size);
    var p := MakePlan(batches, nodes, stopOnFailure, op);
    UpgradeBatchesPartition(nodes, canary, size);
    forall b: nat, i: nat ensures InBatch(batches, b, i) <==> i < nodes && At(batches, i) == b {
      if i < nodes {
        assert Placed(batches, i);
        var c: nat :| InBatch(batches, c, i);
        AtIsItsBatch(batches, c, i);
      }
    }
    forall b: nat | b < |batches| ensures HasPlace(p, b) {
      var item := batches[b][0].item;
      assert InBatch(batches, b, item);
      assert p.place[item] == b;
    }
    forall i | 0 <= i < nodes ensures p.place[i] < |batches| {
      assert InBatch(batches, p.place[i], i);
    }
  }

  // ---- steps -------------------------------------------------------------------------

  /** The entries of a batch are set to running, whatever their status was. */
  function Started(items: seq<Item>, place: seq<nat>, b: nat): (r: seq<Item>)
    requires |place| == |items|
    ensures |r| == |items|
  {
    seq(|items|, i requires 0 <= i < |items| => if place[i] == b then items[i].(status := ItemRunning) else items[i])
  }

  predicate Cancellable(status: OpStatus) { status.OpScheduled? || status.OpRunning? }

  predicate BatchEnded(p: Plan, items: seq<Item>, b: nat)
    requires |p.place| == |items|
  {
    forall i :: 0 <= i < |items| && p.place[i] == b ==> !items[i].status.ItemRunning?
  }

  predicate NoneRunning(items: seq<Item>) { forall i :: 0 <= i < |items| ==> !items[i].status.ItemRunning? }

  predicate Enabled(p: Plan, r: Rollout, s: Step)
    requires |p.place| == |r.items|
  {
    match s
    case StartBatch => r.control.Next?
    case FinishItem(i, _) =>
      r.control.Gathering? && i < |r.items| && p.place[i] == r.control.batch && r.items[i].status.ItemRunning?
    case AfterGather => r.control.Gathering? && BatchEnded(p, r.items, r.control.batch)
    case Cancel => Cancellable(r.status)
  }

  function After(p: Plan, r: Rollout, s: Step): (r': Rollout)
    requires |p.place| == |r.items| && Enabled(p, r, s)
    ensures |r'.items| == |r.items|
  {
    match s
    case StartBatch =>
      var b := r.control.batch;
      if b >= |p.batches| || !Cancellable(r.status) then r.(control := Returned(b))
      else r.(items := Started(r.items, p.place, b), control := Gathering(b))
    case FinishItem(i, ok) =>
      var items := r.items[i := r.items[i].(status := if ok then Done else Broken)];
      r.(items := items, status := Finalized(items, p.op, r.status))
    case AfterGather =>
      if AnyItem(r.items, p.op, Broken) && p.stopOnFailure then
        var items := DropScheduled(r.items, p.op);
        r.(items := items, status := Finalized(items, p.op, r.status), control := Returned(r.control.batch + 1))
      else r.(control := Next(r.control.batch + 1))
    case Cancel =>
      r.(items := DropScheduled(r.items, p.op), status := OpCancelled, idleCancel := NoneRunning(r.items))
  }

  function Begin(p: Plan): (r: Rollout)
    ensures |r.items| == |p.place|
  {
    Rollout(seq(|p.place|, i requires 0 <= i < |p.place| => Item(p.op, i, None, Scheduled)), OpRunning, Next(0), false)
  }

  function Run(p: Plan, steps: seq<Step>): (r: Rollout)
    ensures |r.items| == |p.place|
  {
    if steps == [] then Begin(p)
    else
      var r := Run(p, steps[..|steps| - 1]);
      if Enabled(p, r, steps[|steps| - 1]) then After(p, r, steps[|steps| - 1]) else r
  }

  // ---- the invariant -----------------------------------------------------------------

  predicate Finished(s: ItemStatus) { s.Done? || s.Broken? }

  /** Items of batches that have not been started: untouched while the operation runs, dropped otherwise. */
  predicate Unstarted(s: ItemStatus, op: OpStatus) { if op.OpRunning? then s.Scheduled? else s.Dropped? }

  /** The status each item may have, by its batch. */
  predicate Fits(p: Plan, r: Rollout, b: nat, s: ItemStatus) {
    match r.control
    case Next(n) => if b < n then Finished(s) && (p.stopOnFailure ==> s.Done?) else Unstarted(s, r.status)
    case Gathering(n) =>
      if b < n then Finished(s) && (p.stopOnFailure ==> s.Done?)
      else if b == n then Finished(s) || s.ItemRunning?
      else Unstarted(s, r.status)
    case Returned(n) => if b < n then Finished(s) && (p.stopOnFailure && b + 1 < n ==> s.Done?) else s.Dropped?
  }

  ghost predicate ItemsFit(p: Plan, r: Rollout) {
    |r.items| == |p.place| &&
    forall i :: 0 <= i < |r.items| ==> r.items[i].op == p.op && Fits(p, r, p.place[i], r.items[i].status)
  }

  /** The operation's status once every item is terminal. */
  predicate Settled(p: Plan, r: Rollout) {
    if r.idleCancel && (r.control.Gathering? || !p.stopOnFailure) then r.status == OpCancelled
    else r.status == Summary(r.items, p.op)
  }

  ghost predicate Inv(p: Plan, r: Rollout) {
    && ItemsFit(p, r)
    && (if AllTerminal(r.items, p.op) then Settled(p, r) else r.status.OpRunning? || r.status.OpCancelled?)
    && (r.idleCancel ==> AllTerminal(r.items, p.op) && AnyItem(r.items, p.op, Dropped))
    && (r.control.Next? ==> r.control.batch <= |p.batches|)
    && (r.control.Gathering? ==> r.control.batch < |p.batches|)
    && (r.control.Returned? ==> r.control.started <= |p.batches|)
  }

  lemma SummaryStatus(items: seq<Item>, op: nat, status: OpStatus)
    ensures !Summary(items, op).OpRunning? && !Summary(items, op).OpScheduled?
    ensures HasItems(items, op) && AllTerminal(items, op) ==> Finalized(items, op, status) == Summary(items, op)
  {
  }

  /** Every item belongs to the operation, and there is one. */
  lemma ItemsThere(p: Plan, r: Rollout)
    requires ItemsFit(p, r) && |p.place| > 0
    ensures HasItems(r.items, p.op)
  {
    assert r.items[0].op == p.op;
  }

  lemma BeginInv(p: Plan)
    requires WellPlanned(p) && |p.place| > 0
    ensures Inv(p, Begin(p))
  {
    var r := Begin(p);
    assert r.items[0].op == p.op && !r.items[0].status.Terminal();
  }

  lemma StartKeepsInv(p: Plan, r: Rollout)
    requires WellPlanned(p) && |p.place| > 0 && Inv(p, r) && Enabled(p, r, StartBatch)
    ensures Inv(p, After(p, r, StartBatch))
  {
    var r' := After(p, r, StartBatch);
    var b := r.control.batch;
    SummaryStatus(r.items, p.op, r.status);
    if b < |p.batches| && Cancellable(r.status) {
      assert HasPlace(p, b);
      var i :| 0 <= i < |p.place| && p.place[i] == b;
      assert r.items[i].op == p.op && r.items[i].status.Scheduled?;
      assert r'.items[i].op == p.op && r'.items[i].status.ItemRunning?;
      assert !AllTerminal(r'.items, p.op);
    } else {
      assert forall i :: 0 <= i < |r.items| ==> Fits(p, r', p.place[i], r'.items[i].status);
      assert AllTerminal(r.items, p.op);
    }
  }

  lemma FinishKeepsInv(p: Plan, r: Rollout, item: nat, ok: bool)
    requires WellPlanned(p) && |p.place| > 0 && Inv(p, r) && Enabled(p, r, FinishItem(item, ok))
    ensures Inv(p, After(p, r, FinishItem(item, ok)))
  {
    var r' := After(p, r, FinishItem(item, ok));
    assert r.items[item].op == p.op;
    assert !AllTerminal(r.items, p.op);
    assert r'.items[item].op == p.op;
    SummaryStatus(r'.items, p.op, r.status);
    if AllTerminal(r'.items, p.op) {
      forall i | 0 <= i < |r.items| ensures Fits(p, r', p.place[i], r'.items[i].status) {
        assert r'.items[i].op == p.op && r'.items[i].status.Terminal();
        assert Fits(p, r, p.place[i], r.items[i].status);
      }
    } else {
      assert forall i :: 0 <= i < |r.items| ==> Fits(p, r, p.place[i], r.items[i].status);
    }
  }

  lemma DroppedFacts(items: seq<Item>, op: nat)
    ensures forall i :: 0 <= i < |items| ==> DropScheduled(items, op)[i].op == items[i].op
    ensures AnyItem(items, op, Broken) <==> AnyItem(DropScheduled(items, op), op, Broken)
    ensures AnyItem(items, op, Dropped) ==> AnyItem(DropScheduled(items, op), op, Dropped)
    ensures AnyItem(items, op, Scheduled) ==> AnyItem(DropScheduled(items, op), op, Dropped)
  {
    var after := DropScheduled(items, op);
    if AnyItem(items, op, Broken) {
      var i :| 0 <= i < |items| && items[i].op == op && items[i].status == Broken;
      assert after[i].op == op && after[i].status == Broken;
    }
    if AnyItem(after, op, Broken) {
      var i :| 0 <= i < |after| && after[i].op == op && after[i].status == Broken;
      assert items[i].op == op && items[i].status == Broken;
    }
    if AnyItem(items, op, Dropped) {
      var i :| 0 <= i < |items| && items[i].op == op && items[i].status == Dropped;
      assert after[i].op == op && after[i].status == Dropped;
    }
    if AnyItem(items, op, Scheduled) {
      var i :| 0 <= i < |items| && items[i].op == op && items[i].status == Scheduled;
      assert after[i].op == op && after[i].status == Dropped;
    }
  }

  lemma StoppingKeepsInv(p: Plan, r: Rollout)
    requires WellPlanned(p) && |p.place| > 0 && Inv(p, r) && Enabled(p, r, AfterGather)
    requires AnyItem(r.items, p.op, Broken) && p.stopOnFailure
    ensures Inv(p, After(p, r, AfterGather))
  {
    var r' := After(p, r, AfterGather);
    DroppedFacts(r.items, p.op);
    SummaryStatus(r'.items, p.op, r.status);
    forall i | 0 <= i < |r.items| ensures r'.items[i].op == p.op && Fits(p, r', p.place[i], r'.items[i].status) {
      assert Fits(p, r, p.place[i], r.items[i].status);
    }
    ItemsThere(p, r');
    assert AllTerminal(r'.items, p.op);
  }

  lemma GoingOnKeepsInv(p: Plan, r: Rollout)
    requires WellPlanned(p) && |p.place| > 0 && Inv(p, r) && Enabled(p, r, AfterGather)
    requires !(AnyItem(r.items, p.op, Broken) && p.stopOnFailure)
    ensures Inv(p, After(p, r, AfterGather))
  {
    var r' := After(p, r, AfterGather);
    SummaryStatus(r.items, p.op, r.status);
    forall i | 0 <= i < |r.items| ensures Fits(p, r', p.place[i], r'.items[i].status) {
      assert Fits(p, r, p.place[i], r.items[i].status);
      assert r.items[i].op == p.op;
    }
  }

  lemma GatherKeepsInv(p: Plan, r: Rollout)
    requires WellPlanned(p) && |p.place| > 0 && Inv(p, r) && Enabled(p, r, AfterGather)
    ensures Inv(p, After(p, r, AfterGather))
  {
    if AnyItem(r.items, p.op, Broken) && p.stopOnFailure { StoppingKeepsInv(p, r); } else { GoingOnKeepsInv(p, r); }
  }

  lemma CancelKeepsItemsFit(p: Plan, r: Rollout)
    requires ItemsFit(p, r) && Enabled(p, r, Cancel)
    requires !AllTerminal(r.items, p.op) && (r.status.OpRunning? || r.status.OpCancelled?)
    ensures ItemsFit(p, After(p, r, Cancel))
  {
    var r' := After(p, r, Cancel);
    forall i | 0 <= i < |r.items| ensures r'.items[i].op == p.op && Fits(p, r', p.place[i], r'.items[i].status) {
      assert Fits(p, r, p.place[i], r.items[i].status);
    }
  }

  /** Without a running item the cancellation drops at least one and ends them all; with one it does not. */
  lemma CancelEndsItems(p: Plan, r: Rollout)
    requires ItemsFit(p, r) && Enabled(p, r, Cancel) && r.status.OpRunning? && !AllTerminal(r.items, p.op)
    ensures var items := After(p, r, Cancel).items;
      if NoneRunning(r.items) then AllTerminal(items, p.op) && AnyItem(items, p.op, Dropped)
      else !AllTerminal(items, p.op)
  {
    var r' := After(p, r, Cancel);
    DroppedFacts(r.items, p.op);
    if NoneRunning(r.items) {
      var i :| 0 <= i < |r.items| && r.items[i].op == p.op && !r.items[i].status.Terminal();
      assert Fits(p, r, p.place[i], r.items[i].status) && r.items[i].status.Scheduled?;
      assert AnyItem(r.items, p.op, Scheduled);
    } else {
      var i :| 0 <= i < |r.items| && r.items[i].status.ItemRunning?;
      assert r'.items[i].op == p.op && r'.items[i].status.ItemRunning?;
    }
  }

  lemma CancelKeepsInv(p: Plan, r: Rollout)
    requires WellPlanned(p) && |p.place| > 0 && Inv(p, r) && Enabled(p, r, Cancel)
    ensures Inv(p, After(p, r, Cancel))
  {
    SummaryStatus(r.items, p.op, r.status);
    assert !AllTerminal(r.items, p.op);
    CancelKeepsItemsFit(p, r);
    CancelEndsItems(p, r);
    hide ItemsFit, AllTerminal, AnyItem, NoneRunning, DropScheduled, Summary, WellPlanned;
  }

  lemma {:induction false} RunKeepsInv(p: Plan, steps: seq<Step>)
    requires WellPlanned(p) && |p.place| > 0
    ensures Inv(p, Run(p, steps))
  {
    if steps == [] {
      BeginInv(p);
    } else {
      var r, s := Run(p, steps[..|steps| - 1]), steps[|steps| - 1];
      RunKeepsInv(p, steps[..|steps| - 1]);
      if Enabled(p, r, s) {
        match s
        case StartBatch => StartKeepsInv(p, r);
        case FinishItem(i, ok) => FinishKeepsInv(p, r, i, ok);
        case AfterGather => GatherKeepsInv(p, r);
        case Cancel => CancelKeepsInv(p, r);
      }
    }
  }

  // ---- what it gives -----------------------------------------------------------------

  /** The k-th step cancels while no item is running, one has failed, and the rollout does not stop on failure. */
  predicate Hides(p: Plan, steps: seq<Step>, k: nat) {
    && k < |steps| && steps[k].Cancel? && Enabled(p, Run(p, steps[..k]), Cancel)
    && NoneRunning(Run(p, steps[..k]).items) && AnyItem(Run(p, steps[..k]).items, p.op, Broken) && !p.stopOnFailure
  }

  predicate AnyHides(p: Plan, steps: seq<Step>) { exists k :: 0 <= k < |steps| && Hides(p, steps, k) }

  lemma HidesNext(p: Plan, steps: seq<Step>)
    requires steps != []
    ensures AnyHides(p, steps) <==> AnyHides(p, steps[..|steps| - 1]) || Hides(p, steps, |steps| - 1)
  {
    var rest := steps[..|steps| - 1];
    forall k | 0 <= k < |rest| ensures Hides(p, steps, k) <==> Hides(p, rest, k) {
      assert steps[..k] == rest[..k];
    }
  }

  /** After a cancellation while nothing ran, no step makes or unmakes a failed item. */
  lemma IdleKeepsFailures(p: Plan, r: Rollout, s: Step)
    requires |p.place| > 0 && Inv(p, r) && r.idleCancel && Enabled(p, r, s)
    ensures var r' := After(p, r, s);
      r'.idleCancel && (AnyItem(r'.items, p.op, Broken) <==> AnyItem(r.items, p.op, Broken))
  {
    DroppedFacts(r.items, p.op);
    SummaryStatus(r.items, p.op, r.status);
  }

  lemma {:induction false} IdleCancelIsAStep(p: Plan, steps: seq<Step>)
    requires WellPlanned(p) && |p.place| > 0
    ensures var r := Run(p, steps);
      AnyHides(p, steps) <==> r.idleCancel && !p.stopOnFailure && AnyItem(r.items, p.op, Broken)
  {
    if steps != [] {
      var rest, s := steps[..|steps| - 1], steps[|steps| - 1];
      var r := Run(p, rest);
      IdleCancelIsAStep(p, rest);
      HidesNext(p, steps);
      RunKeepsInv(p, rest);
      DroppedFacts(r.items, p.op);
      SummaryStatus(r.items, p.op, r.status);
      if Enabled(p, r, s) && r.idleCancel { IdleKeepsFailures(p, r, s); }
    }
  }

  /** When the orchestrator returns every item is terminal, and the operation has the status its items call for,
      failed before cancelled before completed, unless, without stop-on-failure, a cancellation was accepted while no
      item was running and an item had already failed: nothing summarises the items again after that. */
  lemma ReturnedStatusExactly(p: Plan, steps: seq<Step>)
    requires WellPlanned(p) && |p.place| > 0 && Run(p, steps).control.Returned?
    ensures var r := Run(p, steps);
      && (forall i :: 0 <= i < |r.items| ==> r.items[i].status in {Done, Broken, Dropped})
      && var called :=
           if exists i :: 0 <= i < |r.items| && r.items[i].status == Broken then OpFailed
           else if exists i :: 0 <= i < |r.items| && r.items[i].status == Dropped then OpCancelled
           else OpCompleted;
         r.status == called <==> !AnyHides(p, steps)
  {
    var r := Run(p, steps);
    RunKeepsInv(p, steps);
    IdleCancelIsAStep(p, steps);
    assert forall i :: 0 <= i < |r.items| ==> Fits(p, r, p.place[i], r.items[i].status);
    assert forall status :: AnyItem(r.items, p.op, status) <==>
      exists i :: 0 <= i < |r.items| && r.items[i].status == status;
  }

  /** This step of the run ends item `i`. */
  predicate Ends(p: Plan, steps: seq<Step>, k: nat, i: nat, ok: bool) {
    k < |steps| && steps[k] == FinishItem(i, ok) && Enabled(p, Run(p, steps[..k]), steps[k])
  }

  predicate Ended(p: Plan, steps: seq<Step>, i: nat, ok: bool) {
    exists k :: 0 <= k < |steps| && Ends(p, steps, k, i, ok)
  }

  lemma EndedNext(p: Plan, steps: seq<Step>, i: nat, ok: bool)
    requires steps != []
    ensures Ended(p, steps, i, ok) <==> Ended(p, steps[..|steps| - 1], i, ok) || Ends(p, steps, |steps| - 1, i, ok)
  {
    var rest := steps[..|steps| - 1];
    forall k | 0 <= k < |rest| ensures Ends(p, steps, k, i, ok) <==> Ends(p, rest, k, i, ok) {
      assert steps[..k] == rest[..k];
    }
  }

  /** One step: an item is done or failed afterwards if it was before or if the step ended it so. */
  lemma StepEndsItem(p: Plan, r: Rollout, s: Step, i: nat)
    requires WellPlanned(p) && Inv(p, r) && Enabled(p, r, s) && i < |r.items|
    ensures var now := After(p, r, s).items[i].status;
      && (now.Done? <==> r.items[i].status.Done? || s == FinishItem(i, true))
      && (now.Broken? <==> r.items[i].status.Broken? || s == FinishItem(i, false))
  {
    assert Fits(p, r, p.place[i], r.items[i].status);
  }

  /** An item is done exactly if a step of the run ended it successfully, and failed exactly if one ended it
      otherwise. */
  lemma {:induction false} OutcomesAreRecorded(p: Plan, steps: seq<Step>, i: nat)
    requires WellPlanned(p) && i < |p.place|
    ensures Run(p, steps).items[i].status.Done? <==> Ended(p, steps, i, true)
    ensures Run(p, steps).items[i].status.Broken? <==> Ended(p, steps, i, false)
  {
    if steps != [] {
      var rest, s := steps[..|steps| - 1], steps[|steps| - 1];
      OutcomesAreRecorded(p, rest, i);
      RunKeepsInv(p, rest);
      EndedNext(p, steps, i, true);
      EndedNext(p, steps, i, false);
      if Enabled(p, Run(p, rest), s) { StepEndsItem(p, Run(p, rest), s, i); }
      hide Ended, Enabled, After;
    }
  }

  lemma {:induction false} NothingIsDropped(p: Plan, steps: seq<Step>)
    requires WellPlanned(p) && |p.place| > 0 && forall k :: 0 <= k < |steps| ==> !steps[k].Cancel?
    requires forall i: nat :: i < |p.place| ==> !Ended(p, steps, i, false)
    ensures forall i :: 0 <= i < |p.place| ==> !Run(p, steps).items[i].status.Dropped?
  {
    if steps != [] {
      var rest, s := steps[..|steps| - 1], steps[|steps| - 1];
      forall i: nat | i < |p.place| ensures !Ended(p, rest, i, false) { EndedNext(p, steps, i, false); }
      NothingIsDropped(p, rest);
      var r := Run(p, rest);
      forall i: nat | i < |p.place| ensures !r.items[i].status.Broken? { OutcomesAreRecorded(p, rest, i); }
      assert !s.Cancel?;
      hide Ended;
    }
  }

  /** A run that returns without a cancellation and without a failed item has done all of them. */
  lemma SuccessIsComplete(p: Plan, steps: seq<Step>)
    requires WellPlanned(p) && |p.place| > 0 && Run(p, steps).control.Returned?
    requires forall k :: 0 <= k < |steps| ==> !steps[k].Cancel?
    requires forall i: nat :: i < |p.place| ==> !Ended(p, steps, i, false)
    ensures Run(p, steps).status == OpCompleted
    ensures forall i :: 0 <= i < |p.place| ==> Run(p, steps).items[i].status == Done
  {
    ReturnedStatusExactly(p, steps);
    NothingIsDropped(p, steps);
    forall i: nat | i < |p.place| ensures !Run(p, steps).items[i].status.Broken? { OutcomesAreRecorded(p, steps, i); }
    hide Ended;
  }

  /** With stop-on-failure no item of a later batch is ever started once an item has failed. */
  lemma NothingStartsAfterFailure(p: Plan, steps: seq<Step>, i: nat, j: nat)
    requires WellPlanned(p) && p.stopOnFailure && i < |p.place| && j < |p.place| && p.place[i] < p.place[j]
    requires Run(p, steps).items[i].status.Broken?
    ensures var s := Run(p, steps).items[j].status; s.Scheduled? || s.Dropped?
  {
    var r := Run(p, steps);
    RunKeepsInv(p, steps);
    assert Fits(p, r, p.place[i], r.items[i].status) && Fits(p, r, p.place[j], r.items[j].status);
  }

  /** Items run together only within one batch, and a later batch starts after every earlier one has finished. */
  lemma BatchesRunInOrder(p: Plan, steps: seq<Step>, i: nat, j: nat)
    requires WellPlanned(p) && i < |p.place| && j < |p.place| && p.place[i] < p.place[j]
    requires var s := Run(p, steps).items[j].status; s.ItemRunning? || Finished(s)
    ensures Finished(Run(p, steps).items[i].status)
  {
    var r := Run(p, steps);
    RunKeepsInv(p, steps);
    assert Fits(p, r, p.place[i], r.items[i].status) && Fits(p, r, p.place[j], r.items[j].status);
  }

  /** The unconditional UPDATE that starts a batch only ever meets scheduled items, and none is left once the operation
      has been cancelled. */
  lemma OnlyScheduledItemsStart(p: Plan, steps: seq<Step>, i: nat)
    requires WellPlanned(p) && i < |p.place| && Enabled(p, Run(p, steps), StartBatch)
    ensures var r := Run(p, steps);
      && (After(p, r, StartBatch).items[i].status.ItemRunning? ==> r.items[i].status.Scheduled?)
      && (!r.status.OpRunning? ==> !r.items[i].status.Scheduled?)
  {
    var r := Run(p, steps);
    RunKeepsInv(p, steps);
    assert Fits(p, r, p.place[i], r.items[i].status);
    SummaryStatus(r.items, p.op, r.status);
  }

  /** The canary goes first and alone: any other item has been started only if the canary has finished, and, with
      stop-on-failure, only if it succeeded. */
  lemma CanaryGoesFirst(nodes: nat, canary: nat, size: nat, stopOnFailure: bool, op: nat, steps: seq<Step>, j: nat)
    requires canary < nodes && size >= 1 && j < nodes && j != canary
    requires var p := MakePlan(UpgradeBatches(nodes, canary, size), nodes, stopOnFailure, op);
      var s := Run(p, steps).items[j].status; s.ItemRunning? || Finished(s)
    ensures var p := MakePlan(UpgradeBatches(nodes, canary, size), nodes, stopOnFailure, op);
      var s := Run(p, steps).items[canary].status; s.Done? || (s.Broken? && !stopOnFailure)
  {
    var batches := UpgradeBatches(nodes, canary, size);
    var p := MakePlan(batches, nodes, stopOnFailure, op);
    UpgradePlanIsWell(nodes, canary, size, stopOnFailure, op);
    UpgradeBatchesPartition(nodes, canary, size);
    assert batches[0][0].item == canary;
    assert InBatch(batches, 0, canary);
    assert !InBatch(batches, 0, j);
    assert p.place[canary] == 0 && p.place[j] > 0;
    BatchesRunInOrder(p, steps, canary, j);
    if stopOnFailure && Run(p, steps).items[canary].status.Broken? { NothingStartsAfterFailure(p, steps, canary, j); }
  }

  function CancelBetween(canary: nat): seq<Step> {
    [StartBatch, FinishItem(canary, false), AfterGather, Cancel, StartBatch]
  }

  /** The canary is alone in the first of several batches. */
  predicate CanaryAlone(p: Plan, canary: nat) {
    && canary < |p.place| && (forall j :: 0 <= j < |p.place| ==> (p.place[j] == 0 <==> j == canary))
    && |p.batches| > 1 && |p.place| > 1
  }

  /** The canary has failed and nothing else has happened. */
  predicate CanaryFailed(p: Plan, canary: nat, items: seq<Item>) {
    |items| == |p.place| &&
    forall i :: 0 <= i < |items| ==> items[i].op == p.op && items[i].status == if i == canary then Broken else Scheduled
  }

  lemma CanaryFails(p: Plan, canary: nat) returns (r: Rollout)
    requires CanaryAlone(p, canary)
    ensures CanaryFailed(p, canary, r.items) && r == Rollout(r.items, OpRunning, Gathering(0), false)
    ensures Run(p, CancelBetween(canary)[..2]) == r
  {
    var s := CancelBetween(canary);
    assert s[..2][..1] == s[..1] && s[..1][..0] == [];
    assert Run(p, []) == Begin(p);
    var r1 := Run(p, s[..1]);
    assert r1 == After(p, Begin(p), StartBatch);
    r := Run(p, s[..2]);
    assert r1.items[canary].status.ItemRunning?;
    assert r.items == r1.items[canary := r1.items[canary].(status := Broken)];
    var other := if canary == 0 then 1 else 0;
    assert r.items[other].op == p.op && !r.items[other].status.Terminal();
  }

  lemma CanaryFailsThenCancel(p: Plan, canary: nat)
    requires CanaryAlone(p, canary) && !p.stopOnFailure
    ensures var r := Run(p, CancelBetween(canary));
      r.control.Returned? && r.status == OpCancelled && AnyItem(r.items, p.op, Broken)
  {
    var s := CancelBetween(canary);
    assert s[..4][..3] == s[..3] && s[..3][..2] == s[..2] && s[..4] == s[..|s| - 1];
    var r2 := CanaryFails(p, canary);
    hide CancelBetween, CanaryAlone;
    assert Run(p, s[..3]) == r2.(control := Next(1));
    var r4 := Run(p, s[..4]);
    assert r4.status == OpCancelled && r4.items[canary].op == p.op && r4.items[canary].status == Broken &&
      r4.control == Next(1);
  }

  lemma UpgradeCanaryAlone(nodes: nat, canary: nat, size: nat, stopOnFailure: bool, op: nat)
    requires canary < nodes && nodes > 1 && size >= 1
    ensures CanaryAlone(MakePlan(UpgradeBatches(nodes, canary, size), nodes, stopOnFailure, op), canary)
  {
    var batches := UpgradeBatches(nodes, canary, size);
    var p := MakePlan(batches, nodes, stopOnFailure, op);
    UpgradePlanIsWell(nodes, canary, size, stopOnFailure, op);
    UpgradeBatchesPartition(nodes, canary, size);
    hide UpgradeBatches, MakePlan, At;
    assert batches[0][0].item == canary;
    assert InBatch(batches, 0, canary);
    forall j | 0 <= j < nodes ensures p.place[j] == 0 <==> j == canary {
      assert InBatch(batches, 0, j) <==> p.place[j] == 0;
    }
    var other := if canary == 0 then 1 else 0;
    assert p.place[other] > 0 && p.place[other] < |p.batches|;
  }

  /** The exception does happen, in every rollout to several nodes without stop-on-failure: the canary fails, and the
      operator cancels before the next batch. */
  lemma CancelCanHideFailure(nodes: nat, canary: nat, size: nat, op: nat)
    requires canary < nodes && nodes > 1 && size >= 1
    ensures var r := Run(MakePlan(UpgradeBatches(nodes, canary, size), nodes, false, op), CancelBetween(canary));
      r.control.Returned? && r.status == OpCancelled && AnyItem(r.items, op, Broken)
  {
    hide UpgradeBatches, Run, CancelBetween;
    UpgradeCanaryAlone(nodes, canary, size, false, op);
    CanaryFailsThenCancel(MakePlan(UpgradeBatches(nodes, canary, size), nodes, false, op), canary);
  }

  /** fleet_operations and fleet_operation_items of one operation, and the orchestrator's progress. */
  class Orchestrator {
    var items: seq<Item>
    var status: OpStatus
    var control: Control
    ghost var idleCancel: bool
    const plan: Plan

    ghost function View(): Rollout
      reads this
    {
      Rollout(items, status, control, idleCancel)
    }

    constructor (plan: Plan)
      ensures View() == Begin(plan) && this.plan == plan
    {
      this.plan := plan;
      items := seq(|plan.place|, i requires 0 <= i < |plan.place| => Item(plan.op, i, None, Scheduled));
      status, control, idleCancel := OpRunning, Next(0), false;
    }

    /** One pass of the loop of orchestrate_agent_upgrade up to gather, or its return. */
    method Start()
      requires WellPlanned(plan) && |plan.place| == |items| && control.Next?
      modifies this
      ensures View() == After(plan, old(View()), StartBatch)
    {
      var b := control.batch;
      if b >= |plan.batches| || !Cancellable(status) {
        control := Returned(b);
        return;
      }
      var batch := plan.batches[b];
      var marked := items;
      for k := 0 to |batch|
        invariant View() == old(View()) && |marked| == |items|
        invariant forall i :: 0 <= i < |items| ==>
          marked[i] == if Listed(batch[..k], i) then items[i].(status := ItemRunning) else items[i]
      {
        assert InBatch(plan.batches, b, batch[k].item);
        ListedNext(batch, k);
        marked := marked[batch[k].item := marked[batch[k].item].(status := ItemRunning)];
      }
      assert batch[..|batch|] == batch;
      assert forall i: nat :: Listed(batch, i) <==> InBatch(plan.batches, b, i);
      assert marked == Started(items, plan.place, b);
      items, control := marked, Gathering(b);
    }

    /** The `finally` of provision_node_for_fleet. */
    method Finish(i: nat, ok: bool)
      requires |plan.place| == |items| && Enabled(plan, View(), FinishItem(i, ok))
      modifies this
      ensures View() == After(plan, old(View()), FinishItem(i, ok))
    {
      items := items[i := items[i].(status := if ok then Done else Broken)];
      status := Finalize(items, plan.op, status);
    }

    /** What follows gather. */
    method AfterBatch()
      requires |plan.place| == |items| && Enabled(plan, View(), AfterGather)
      modifies this
      ensures View() == After(plan, old(View()), AfterGather)
    {
      if AnyItem(items, plan.op, Broken) && plan.stopOnFailure {
        items := DropScheduled(items, plan.op);
        status := Finalize(items, plan.op, status);
        control := Returned(control.batch + 1);
      } else {
        control := Next(control.batch + 1);
      }
    }

    /** cancel_fleet_operation_mutation, for an upgrade. */
    method CancelOperation() returns (accepted: bool)
      requires |plan.place| == |items|
      modifies this
      ensures accepted == Cancellable(old(status))
      ensures View() == if accepted then After(plan, old(View()), Cancel) else old(View())
    {
      if !Cancellable(status) { return false; }
      idleCancel := NoneRunning(items);
      items, status := DropScheduled(items, plan.op), OpCancelled;
      return true;
    }
  }

  predicate Listed(batch: seq<Entry>, item: nat) { exists k :: 0 <= k < |batch| && batch[k].item == item }

  lemma ListedNext(batch: seq<Entry>, k: nat)
    requires k < |batch|
    ensures forall i: nat :: Listed(batch[..k + 1], i) <==> Listed(batch[..k], i) || i == batch[k].item
  {
    assert batch[..k + 1] == batch[..k] + [batch[k]];
    forall i: nat ensures Listed(batch[..k + 1], i) <==> Listed(batch[..k], i) || i == batch[k].item {
      if Listed(batch[..k], i) {
        var l :| 0 <= l < k && batch[..k][l].item == i;
        assert batch[..k + 1][l].item == i;
      }
      if i == batch[k].item { assert batch[..k + 1][k].item == i; }
    }
  }
}
