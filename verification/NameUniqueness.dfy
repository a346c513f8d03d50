/** Deployment names: what the check at creation does and does not guarantee afterwards. */
module NameUniqueness {
  import opened JobQueue
  import opened HubState
  import opened Saga
  import opened ExactlyOnce

  /** Two live rows with one name that share a node; with `byPlugin`, and with one plugin. */
  predicate Clash(byPlugin: bool, a: Deployment, b: Deployment) {
    && Live(a.lifecycle) && Live(b.lifecycle) && a.name == b.name && (byPlugin ==> a.plugin == b.plugin)
    && SharesNode(a, b.iranNode, b.kharejNode)
  }

  predicate NamesUnique(byPlugin: bool, deps: seq<Deployment>) {
    forall d, e :: 0 <= d < e < |deps| ==> !Clash(byPlugin, deps[d], deps[e])
  }

  /** A retry or removal that would bring back a row whose name a live row has taken meanwhile. */
  predicate RevivesTakenName(byPlugin: bool, h: Hub, e: Event) {
    && (e.RetryEvent? || e.RemoveEvent?) && e.dep < |h.deps| && h.deps[e.dep].lifecycle.RolledBack?
    && (e.RetryEvent? ==> e.permitted)
    && exists d :: 0 <= d < |h.deps| && d != e.dep && Clash(byPlugin, h.deps[d], h.deps[e.dep].(lifecycle := Active))
  }

  /** How a step may change a row: names and nodes never change, and only an accepted retry or
      removal brings a rolled-back row back to life. */
  predicate RowsEvolve(h: Hub, e: Event, h': Hub)
  {
    && |h.deps| <= |h'.deps|
    && (forall d :: 0 <= d < |h.deps| ==>
      && h'.deps[d].name == h.deps[d].name && h'.deps[d].plugin == h.deps[d].plugin
      && h'.deps[d].iranNode == h.deps[d].iranNode && h'.deps[d].kharejNode == h.deps[d].kharejNode
      && (Live(h'.deps[d].lifecycle) && !Live(h.deps[d].lifecycle) ==> (e.RetryEvent? || e.RemoveEvent?) && e.dep == d))
  }

  lemma DeploymentEffectRows(h: Hub, j: nat, status: Status)
    requires forall d :: 0 <= d < |h.deps| ==> Linked(h, d)
    ensures var h' := DeploymentEffect(h, j, status);
      && |h'.deps| == |h.deps|
      && forall d :: 0 <= d < |h.deps| ==>
        && h'.deps[d].name == h.deps[d].name && h'.deps[d].plugin == h.deps[d].plugin
        && h'.deps[d].iranNode == h.deps[d].iranNode && h'.deps[d].kharejNode == h.deps[d].kharejNode
        && (Live(h'.deps[d].lifecycle) ==> Live(h.deps[d].lifecycle))
  {
  }

  lemma DeliveryEvolvesRows(h: Hub, e: Event)
    requires SagaInv(h) && e.DeliverEvent?
    requires forall d :: 0 <= d < |h.deps| ==> Linked(h, d)
    ensures RowsEvolve(h, e, Step(h, e).hub) && |Step(h, e).hub.deps| == |h.deps|
  {
    if Step(h, e).reply != Accepted {
      RefusedHasNoEffect(h, e);
    } else {
      var h1, status := DeliveryStages(h, e);
      DeploymentEffectRows(h1, e.job, status);
      hide SagaInv, Step, DeploymentEffect, MonitorEffect, FleetEffect;
    }
  }

  lemma RetryEvolvesRows(h: Hub, d: nat, permitted: bool)
    requires d < |h.deps| ==> Linked(h, d)
    ensures var h' := Retry(h, d, permitted).hub;
      |h'.deps| == |h.deps| && RowsEvolve(h, RetryEvent(d, permitted), h')
  {
  }

  lemma RemovalEvolvesRows(h: Hub, e: Event)
    requires forall d :: 0 <= d < |h.deps| ==> Linked(h, d)
    requires e.RemoveEvent? || e.RemoveTunnelEvent? || e.ReconfigureEvent?
    ensures |Step(h, e).hub.deps| == |h.deps| && RowsEvolve(h, e, Step(h, e).hub)
  {
    hide Settled, Retry, Deliver, Requeue, Claim, Renew;
  }

  lemma OtherStepsEvolveRows(h: Hub, e: Event)
    requires !e.DeliverEvent?
    requires forall d :: 0 <= d < |h.deps| ==> Linked(h, d)
    ensures RowsEvolve(h, e, Step(h, e).hub)
    ensures |Step(h, e).hub.deps| > |h.deps| ==> e.CreateEvent? && Step(h, e).reply == Accepted
  {
    if e.RetryEvent? {
      RetryEvolvesRows(h, e.dep, e.permitted);
      hide Retry, RowsEvolve;
    } else if e.RemoveEvent? || e.RemoveTunnelEvent? || e.ReconfigureEvent? {
      RemovalEvolvesRows(h, e);
      hide Step, RowsEvolve;
    } else {
      hide Requeue, Claim, Renew;
    }
  }

  lemma StepEvolvesRows(h: Hub, e: Event)
    requires SagaInv(h)
    requires forall d :: 0 <= d < |h.deps| ==> Linked(h, d)
    ensures RowsEvolve(h, e, Step(h, e).hub)
    ensures |Step(h, e).hub.deps| > |h.deps| ==> e.CreateEvent? && Step(h, e).reply == Accepted
  {
    hide Step, SagaInv, RowsEvolve;
    if e.DeliverEvent? { DeliveryEvolvesRows(h, e); } else { OtherStepsEvolveRows(h, e); }
  }

  /** A rolled-back row has no unfinished job, so nothing but a missing permission keeps it from being revived. */
  lemma RevivalIsAccepted(h: Hub, e: Event)
    requires SagaInv(h) && (e.RetryEvent? || e.RemoveEvent?) && e.dep < |h.deps| && h.deps[e.dep].lifecycle.RolledBack?
    requires forall d :: 0 <= d < |h.deps| ==> Linked(h, d)
    ensures Step(h, e).reply == Accepted <==> (e.RetryEvent? ==> e.permitted)
    ensures Step(h, e).reply == Accepted ==>
      && |Step(h, e).hub.deps| == |h.deps| && Live(Step(h, e).hub.deps[e.dep].lifecycle)
      && forall d :: 0 <= d < |h.deps| && d != e.dep ==> Step(h, e).hub.deps[d] == h.deps[d]
  {
    assert RowOk(h.deps[e.dep], e.dep, h.jobs);
    assert Settled(h, e.dep);
    hide SagaInv, RowOk;
  }

  lemma RevivalClashes(byPlugin: bool, h: Hub, e: Event)
    requires SagaInv(h) && RevivesTakenName(byPlugin, h, e)
    requires forall d :: 0 <= d < |h.deps| ==> Linked(h, d)
    ensures !NamesUnique(byPlugin, Step(h, e).hub.deps)
  {
    var h' := Step(h, e).hub;
    StepEvolvesRows(h, e);
    RevivalIsAccepted(h, e);
    hide Step, SagaInv;
    var d :| 0 <= d < |h.deps| && d != e.dep && Clash(byPlugin, h.deps[d], h.deps[e.dep].(lifecycle := Active));
    assert if d < e.dep then Clash(byPlugin, h'.deps[d], h'.deps[e.dep])
      else Clash(byPlugin, h'.deps[e.dep], h'.deps[d]);
  }

  lemma CreatedNameIsNew(byPlugin: bool, h: Hub, e: Event, a: nat)
    requires e.CreateEvent? && Create(h, e.plugin, e.name, e.iran, e.kharej, e.permitted).reply == Accepted &&
      a < |h.deps|
    ensures var deps := Create(h, e.plugin, e.name, e.iran, e.kharej, e.permitted).hub.deps;
      |deps| == |h.deps| + 1 && deps[a] == h.deps[a] && !Clash(byPlugin, deps[a], deps[|h.deps|])
  {
    assert !NameTaken(h.deps, e.name, e.iran, e.kharej);
  }

  lemma NoNewClash(byPlugin: bool, h: Hub, e: Event, a: nat, b: nat)
    requires SagaInv(h) && NamesUnique(byPlugin, h.deps) && !RevivesTakenName(byPlugin, h, e)
    requires forall d :: 0 <= d < |h.deps| ==> Linked(h, d)
    requires a < b < |h.deps| && RowsEvolve(h, e, Step(h, e).hub) && Step(h, e).reply == Accepted
    ensures !Clash(byPlugin, Step(h, e).hub.deps[a], Step(h, e).hub.deps[b])
  {
    var h' := Step(h, e).hub;
    if Clash(byPlugin, h'.deps[a], h'.deps[b]) {
      assert !Clash(byPlugin, h.deps[a], h.deps[b]);
      assert !Live(h.deps[a].lifecycle) || !Live(h.deps[b].lifecycle);
      var d := if !Live(h.deps[a].lifecycle) then a else b;
      assert e.dep == d;
      RevivalIsAccepted(h, e);
      hide Step, SagaInv;
    }
  }

  lemma OtherStepsKeepUnique(byPlugin: bool, h: Hub, e: Event)
    requires SagaInv(h) && NamesUnique(byPlugin, h.deps) && !RevivesTakenName(byPlugin, h, e) &&
      Step(h, e).reply == Accepted
    requires forall d :: 0 <= d < |h.deps| ==> Linked(h, d)
    ensures NamesUnique(byPlugin, Step(h, e).hub.deps)
  {
    var h' := Step(h, e).hub;
    StepEvolvesRows(h, e);
    forall a, b | 0 <= a < b < |h'.deps| ensures !Clash(byPlugin, h'.deps[a], h'.deps[b]) {
      if b < |h.deps| { NoNewClash(byPlugin, h, e, a, b); } else { CreatedNameIsNew(byPlugin, h, e, a); }
    }
  }

  /** One step keeps live names unique exactly when it is not such a revival. */
  lemma NamesStayUniqueExactly(byPlugin: bool, h: Hub, e: Event)
    requires SagaInv(h) && NamesUnique(byPlugin, h.deps)
    requires forall d :: 0 <= d < |h.deps| ==> Linked(h, d)
    ensures NamesUnique(byPlugin, Step(h, e).hub.deps) <==> !RevivesTakenName(byPlugin, h, e)
  {
    hide NamesUnique, SagaInv;
    if RevivesTakenName(byPlugin, h, e) {
      RevivalClashes(byPlugin, h, e);
    } else if Step(h, e).reply != Accepted {
      RefusedHasNoEffect(h, e);
    } else {
      OtherStepsKeepUnique(byPlugin, h, e);
    }
  }
}
