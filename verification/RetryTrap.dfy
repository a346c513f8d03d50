/** A run on which a retry forgets one end: the removal of a deployment fails on one node only. */
module RetryTrap {
  import opened JobQueue
  import opened HubState
  import opened Saga
  import opened SagaTheorems
  import opened Traces

  const NO_IRAN := NewJob(1, Remove(0, Iran))
  const NO_KHAREJ := NewJob(2, Remove(0, Kharej))

  /** The deployment is being removed, and this is how far its two removals are. */
  function Undoing(noIran: Job, noKharej: Job, installed: set<Tunnel>): Hub {
    Small(Deployed().jobs + [noIran, noKharej], [ROW.(iranJob := 2, kharejJob := 3, lifecycle := Removing)], installed)
  }

  lemma RemovalLeads()
    ensures Leads(Deployed(), RemoveEvent(0), Undoing(NO_IRAN, NO_KHAREJ, Both()))
  {
    var h := Deployed();
    assert Settled(h, 0);
    assert h.jobs + [NO_IRAN] + [NO_KHAREJ] == h.jobs + [NO_IRAN, NO_KHAREJ];
  }

  /** Iran's removal completes, Kharej's fails. */
  function HalfRemoved(): Hub {
    Undoing(Finished(NO_IRAN, Completed), Finished(NO_KHAREJ, Failed), {AT_KHAREJ})
  }

  function RemoveScript(): seq<Event> {
    DeployScript() + [RemoveEvent(0)] + [ClaimOf(1)] + [ResultOf(2, 1, true)] + [ClaimOf(2)] +
      [ResultOf(3, 2, false, true)]
  }

  /** Being removed: Iran's removal in this state, Kharej's queued; and then Kharej's running. */
  function IranRemoving(noIran: Job): Hub { Undoing(noIran, NO_KHAREJ, Both()) }

  function KharejRemoving(noKharej: Job): Hub { Undoing(Finished(NO_IRAN, Completed), noKharej, {AT_KHAREJ}) }

  lemma IranLeads()
    ensures Leads(IranRemoving(NO_IRAN), ClaimOf(1), IranRemoving(Taken(NO_IRAN)))
    ensures Leads(IranRemoving(Taken(NO_IRAN)), ResultOf(2, 1, true), KharejRemoving(NO_KHAREJ))
  {
    var h0, h1 := IranRemoving(NO_IRAN), IranRemoving(Taken(NO_IRAN));
    ClaimLeads(h0, 2, 1);
    QuietResult(h1, 2, true, KharejRemoving(NO_KHAREJ));
    assert h0.jobs[2 := Taken(h0.jobs[2])] == h1.jobs;
  }

  lemma KharejLeads()
    ensures Leads(KharejRemoving(NO_KHAREJ), ClaimOf(2), KharejRemoving(Taken(NO_KHAREJ)))
    ensures Leads(KharejRemoving(Taken(NO_KHAREJ)), ResultOf(3, 2, false, true), HalfRemoved())
  {
    var h2, h3 := KharejRemoving(NO_KHAREJ), KharejRemoving(Taken(NO_KHAREJ));
    ClaimLeads(h2, 3, 2);
    QuietResult(h3, 3, false, HalfRemoved(), true);
    assert h2.jobs[3 := Taken(h2.jobs[3])] == h3.jobs;
  }

  lemma HalfRemovedRun()
    ensures RunFrom([], RemoveScript()) == HalfRemoved()
  {
    hide Leads, RunFrom, Deployed, HalfRemoved, Undoing;
    DeployedRun();
    RemovalLeads();
    IranLeads();
    KharejLeads();
    assert IranRemoving(NO_IRAN) == Undoing(NO_IRAN, NO_KHAREJ, Both());
    var s := DeployScript();
    Extend(s, Deployed(), RemoveEvent(0), IranRemoving(NO_IRAN));
    Extend(s + [RemoveEvent(0)], IranRemoving(NO_IRAN), ClaimOf(1), IranRemoving(Taken(NO_IRAN)));
    Extend(s + [RemoveEvent(0)] + [ClaimOf(1)], IranRemoving(Taken(NO_IRAN)), ResultOf(2, 1, true),
           KharejRemoving(NO_KHAREJ));
    Extend(s + [RemoveEvent(0)] + [ClaimOf(1)] + [ResultOf(2, 1, true)], KharejRemoving(NO_KHAREJ), ClaimOf(2),
           KharejRemoving(Taken(NO_KHAREJ)));
    Extend(s + [RemoveEvent(0)] + [ClaimOf(1)] + [ResultOf(2, 1, true)] + [ClaimOf(2)],
           KharejRemoving(Taken(NO_KHAREJ)), ResultOf(3, 2, false, true), HalfRemoved());
  }

  /** The row is active, but Iran neither holds the tunnel nor has a deploy to come. */
  predicate IranForgotten(h: Hub) {
    && |h.deps| == 1 && h.deps[0].lifecycle.Active? && AT_IRAN !in h.installed
    && forall j :: 0 <= j < |h.jobs| && h.jobs[j].kind == Deploy(0, Iran) ==> h.jobs[j].status.Terminal()
  }

  lemma RetryForgetsIran() returns (h': Hub)
    ensures Leads(HalfRemoved(), RetryEvent(0, true), h') && IranForgotten(h')
  {
    var h := HalfRemoved();
    assert Linked(h, 0) && Retriable(h, 0, true);
    h' := Retry(h, 0, true).hub;
    assert h'.jobs == h.jobs + [NewJob(2, Deploy(0, Kharej))];
  }

  /** Retrying the half-removed deployment forgets an end. */
  lemma RetryCanForgetAnEnd()
    ensures exists events: seq<Event> :: IranForgotten(RunFrom([], events))
  {
    HalfRemovedRun();
    var h' := RetryForgetsIran();
    hide Leads, RunFrom, HalfRemoved, RemoveScript;
    Extend(RemoveScript(), HalfRemoved(), RetryEvent(0, true), h');
    assert IranForgotten(RunFrom([], RemoveScript() + [RetryEvent(0, true)]));
  }
}
