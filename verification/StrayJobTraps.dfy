/** Runs on which a job that no row links any more touches a tunnel behind its row's back. In both an Agent takes a
    job and is restarted, so that the job comes back once its lease has lapsed. */
module StrayJobTraps {
  import opened Common
  import opened JobQueue
  import opened HubState
  import opened Saga
  import opened SagaTheorems
  import opened Traces
  import opened RevivalTrap

  // ---- relinking under a running job -------------------------------------------------------

  const OFF_IRAN := NewJob(1, Remove(0, Iran))
  const OFF_KHAREJ := NewJob(2, Remove(0, Kharej))
  const UP_KHAREJ := Finished(KHAREJ, Completed)
  const REMOVE_TUNNEL := RemoveTunnelEvent(1, PLUGIN, "edge")

  /** Iran's deploy hangs, Kharej's has completed. */
  function Hanging(kharej: Job, installed: set<Tunnel>): Hub { Small([Taken(IRAN), kharej], [ROW], installed) }

  /** The tunnel is removed meanwhile. */
  function Removal(iran: Job, noIran: Job, noKharej: Job, installed: set<Tunnel>): Hub {
    Small([iran, UP_KHAREJ, noIran, noKharej], [ROW.(iranJob := 2, kharejJob := 3, lifecycle := Removing)], installed)
  }

  function HangingScript(): seq<Event> { [CREATE] + [ClaimOf(1)] + [ClaimOf(2)] + [ResultOf(1, 2, true)] }

  lemma HangingRun()
    ensures RunFrom([], HangingScript()) == Hanging(UP_KHAREJ, {AT_KHAREJ})
  {
    var h0 := Small([IRAN, KHAREJ], [ROW], {});
    CreateLeads();
    ClaimLeads(h0, 0, 1);
    assert h0.jobs[0 := Taken(IRAN)] == [Taken(IRAN), KHAREJ];
    ClaimLeads(Hanging(KHAREJ, {}), 1, 2);
    assert Hanging(KHAREJ, {}).jobs[1 := Taken(KHAREJ)] == [Taken(IRAN), Taken(KHAREJ)];
    QuietResult(Hanging(Taken(KHAREJ), {}), 1, true, Hanging(UP_KHAREJ, {AT_KHAREJ}));
    hide Leads, RunFrom;
    assert RunFrom([], []) == Empty([]) by { NoEvents(); }
    Extend([], Empty([]), CREATE, h0);
    assert [] + [CREATE] == [CREATE];
    Extend([CREATE], h0, ClaimOf(1), Hanging(KHAREJ, {}));
    Extend([CREATE] + [ClaimOf(1)], Hanging(KHAREJ, {}), ClaimOf(2), Hanging(Taken(KHAREJ), {}));
    Extend([CREATE] + [ClaimOf(1)] + [ClaimOf(2)], Hanging(Taken(KHAREJ), {}), ResultOf(1, 2, true),
           Hanging(UP_KHAREJ, {AT_KHAREJ}));
  }

  lemma RemovalsLead()
    ensures Leads(Hanging(UP_KHAREJ, {AT_KHAREJ}), REMOVE_TUNNEL,
      Removal(Taken(IRAN), OFF_IRAN, OFF_KHAREJ, {AT_KHAREJ}))
  {
    var h := Hanging(UP_KHAREJ, {AT_KHAREJ});
    assert FirstManaged(h.deps, 1, "edge") == Some(0);
    assert h.jobs + [OFF_IRAN] + [OFF_KHAREJ] == Removal(Taken(IRAN), OFF_IRAN, OFF_KHAREJ, {AT_KHAREJ}).jobs;
  }

  lemma IranRemovalLeads()
    ensures Leads(Removal(Taken(IRAN), OFF_IRAN, OFF_KHAREJ, {AT_KHAREJ}), ClaimOf(1),
                  Removal(Taken(IRAN), Taken(OFF_IRAN), OFF_KHAREJ, {AT_KHAREJ}))
    ensures Leads(Removal(Taken(IRAN), Taken(OFF_IRAN), OFF_KHAREJ, {AT_KHAREJ}), ResultOf(2, 1, true),
                  Removal(Taken(IRAN), Finished(OFF_IRAN, Completed), OFF_KHAREJ, {AT_KHAREJ}))
  {
    var h0 := Removal(Taken(IRAN), OFF_IRAN, OFF_KHAREJ, {AT_KHAREJ});
    var h1 := Removal(Taken(IRAN), Taken(OFF_IRAN), OFF_KHAREJ, {AT_KHAREJ});
    ClaimLeads(h0, 2, 1);
    assert h0.jobs[2 := Taken(OFF_IRAN)] == h1.jobs;
    assert FirstLinked(h1.deps, 2) == Some(0) && {AT_KHAREJ} - {AT_IRAN} == {AT_KHAREJ};
    QuietResult(h1, 2, true, Removal(Taken(IRAN), Finished(OFF_IRAN, Completed), OFF_KHAREJ, {AT_KHAREJ}));
    hide Leads;
  }

  const GONE_IRAN := Finished(OFF_IRAN, Completed)
  const GONE_KHAREJ := Finished(OFF_KHAREJ, Completed)

  lemma OtherRemovalLeads()
    ensures Leads(Removal(Taken(IRAN), GONE_IRAN, OFF_KHAREJ, {AT_KHAREJ}), ClaimOf(2),
                  Removal(Taken(IRAN), GONE_IRAN, Taken(OFF_KHAREJ), {AT_KHAREJ}))
    ensures Leads(Removal(Taken(IRAN), GONE_IRAN, Taken(OFF_KHAREJ), {AT_KHAREJ}), ResultOf(3, 2, true),
                  Removal(Taken(IRAN), GONE_IRAN, GONE_KHAREJ, {}))
  {
    var h0, h1 := Removal(Taken(IRAN), GONE_IRAN, OFF_KHAREJ, {AT_KHAREJ}),
                  Removal(Taken(IRAN), GONE_IRAN, Taken(OFF_KHAREJ), {AT_KHAREJ});
    ClaimLeads(h0, 3, 2);
    assert h0.jobs[3 := Taken(OFF_KHAREJ)] == h1.jobs;
    assert FirstLinked(h1.deps, 3) == Some(0) && {AT_KHAREJ} - {AT_KHAREJ} == {};
    QuietResult(h1, 3, true, Removal(Taken(IRAN), GONE_IRAN, GONE_KHAREJ, {}));
  }

  lemma ReturnLeads()
    ensures Leads(Removal(Taken(IRAN), GONE_IRAN, GONE_KHAREJ, {}), CycleEvent(301),
      Removal(IRAN, GONE_IRAN, GONE_KHAREJ, {}))
    ensures Leads(Removal(IRAN, GONE_IRAN, GONE_KHAREJ, {}), ClaimOf(1),
      Removal(Taken(IRAN), GONE_IRAN, GONE_KHAREJ, {}))
    ensures Leads(Removal(Taken(IRAN), GONE_IRAN, GONE_KHAREJ, {}), ResultOf(0, 1, true),
                  Removal(Finished(IRAN, Completed), GONE_IRAN, GONE_KHAREJ, {AT_IRAN}))
  {
    var h0, h1 := Removal(Taken(IRAN), GONE_IRAN, GONE_KHAREJ, {}), Removal(IRAN, GONE_IRAN, GONE_KHAREJ, {});
    CycleLeads(h0, 0);
    assert h0.jobs[0 := IRAN] == h1.jobs;
    ClaimLeads(h1, 0, 1);
    assert h1.jobs[0 := Taken(IRAN)] == h0.jobs;
    assert FirstLinked(h0.deps, 0) == None;
    QuietResult(h0, 0, true, Removal(Finished(IRAN, Completed), GONE_IRAN, GONE_KHAREJ, {AT_IRAN}));
  }

  function RemovedScript(): seq<Event> {
    HangingScript() + [REMOVE_TUNNEL] + [ClaimOf(1)] + [ResultOf(2, 1, true)] + [ClaimOf(2)] + [ResultOf(3, 2, true)]
  }

  lemma RemovedRun()
    ensures RunFrom([], RemovedScript()) == Removal(Taken(IRAN), GONE_IRAN, GONE_KHAREJ, {})
  {
    var s := HangingScript();
    HangingRun();
    RemovalsLead();
    IranRemovalLeads();
    OtherRemovalLeads();
    hide Leads, RunFrom, HangingScript, Removal, Hanging;
    Extend(s, Hanging(UP_KHAREJ, {AT_KHAREJ}), REMOVE_TUNNEL, Removal(Taken(IRAN), OFF_IRAN, OFF_KHAREJ, {AT_KHAREJ}));
    Extend(s + [REMOVE_TUNNEL], Removal(Taken(IRAN), OFF_IRAN, OFF_KHAREJ, {AT_KHAREJ}), ClaimOf(1),
           Removal(Taken(IRAN), Taken(OFF_IRAN), OFF_KHAREJ, {AT_KHAREJ}));
    Extend(s + [REMOVE_TUNNEL] + [ClaimOf(1)], Removal(Taken(IRAN), Taken(OFF_IRAN), OFF_KHAREJ, {AT_KHAREJ}),
           ResultOf(2, 1, true), Removal(Taken(IRAN), GONE_IRAN, OFF_KHAREJ, {AT_KHAREJ}));
    Extend(s + [REMOVE_TUNNEL] + [ClaimOf(1)] + [ResultOf(2, 1, true)],
           Removal(Taken(IRAN), GONE_IRAN, OFF_KHAREJ, {AT_KHAREJ}), ClaimOf(2),
           Removal(Taken(IRAN), GONE_IRAN, Taken(OFF_KHAREJ), {AT_KHAREJ}));
    Extend(s + [REMOVE_TUNNEL] + [ClaimOf(1)] + [ResultOf(2, 1, true)] + [ClaimOf(2)],
           Removal(Taken(IRAN), GONE_IRAN, Taken(OFF_KHAREJ), {AT_KHAREJ}), ResultOf(3, 2, true),
           Removal(Taken(IRAN), GONE_IRAN, GONE_KHAREJ, {}));
  }

  function ReturnScript(): seq<Event> { RemovedScript() + [CycleEvent(301)] + [ClaimOf(1)] + [ResultOf(0, 1, true)] }

  lemma ReturnedRun()
    ensures RunFrom([], ReturnScript()) == Removal(Finished(IRAN, Completed), GONE_IRAN, GONE_KHAREJ, {AT_IRAN})
  {
    var s := RemovedScript();
    RemovedRun();
    ReturnLeads();
    hide Leads, RunFrom, RemovedScript, Removal;
    Extend(s, Removal(Taken(IRAN), GONE_IRAN, GONE_KHAREJ, {}), CycleEvent(301),
      Removal(IRAN, GONE_IRAN, GONE_KHAREJ, {}));
    Extend(s + [CycleEvent(301)], Removal(IRAN, GONE_IRAN, GONE_KHAREJ, {}), ClaimOf(1),
           Removal(Taken(IRAN), GONE_IRAN, GONE_KHAREJ, {}));
    Extend(s + [CycleEvent(301)] + [ClaimOf(1)], Removal(Taken(IRAN), GONE_IRAN, GONE_KHAREJ, {}), ResultOf(0, 1, true),
           Removal(Finished(IRAN, Completed), GONE_IRAN, GONE_KHAREJ, {AT_IRAN}));
  }

  /** Both removals have completed, and Iran has the tunnel. */
  predicate IranReturned(h: Hub) {
    && |h.deps| == 1 && h.deps[0].lifecycle.Removing?
    && h.deps[0].iranJob < |h.jobs| && h.jobs[h.deps[0].iranJob] == GONE_IRAN
    && h.deps[0].kharejJob < |h.jobs| && h.jobs[h.deps[0].kharejJob] == GONE_KHAREJ
    && h.installed == {h.deps[0].Place(Iran)}
  }

  /** A tunnel is removed while a deploy is still running: both removals complete, and then the deploy does. */
  lemma RemovedTunnelCanReturn()
    ensures exists events: seq<Event> :: IranReturned(RunFrom([], events))
  {
    ReturnedRun();
    assert IranReturned(Removal(Finished(IRAN, Completed), GONE_IRAN, GONE_KHAREJ, {AT_IRAN}));
    hide RunFrom, Removal, ReturnScript, IranReturned;
    assert IranReturned(RunFrom([], ReturnScript()));
  }

  // ---- a removal without a row -------------------------------------------------------------

  const CLEAR := NewJob(1, Uninstall(PLUGIN, "edge"))
  const LATER := Deployment(PLUGIN, "edge", 1, 2, 4, 5, Active)

  /** A rolled-back deployment's tunnel is removed by hand, and this is how far that and a new deployment are. */
  function Cleared(clear: Job, iran: Job, kharej: Job, installed: set<Tunnel>): Hub {
    Small(UNDONE + [clear, iran, kharej], [FIRST, LATER], installed)
  }

  function ClearScript(): seq<Event> { RolledBackScript() + [REMOVE_TUNNEL] + [ClaimOf(1)] + [CREATE] }

  lemma ClearLeads()
    ensures Leads(RolledBackHub(), REMOVE_TUNNEL, Small(UNDONE + [CLEAR], [FIRST], {}))
    ensures Leads(Small(UNDONE + [CLEAR], [FIRST], {}), ClaimOf(1), Small(UNDONE + [Taken(CLEAR)], [FIRST], {}))
    ensures Leads(Small(UNDONE + [Taken(CLEAR)], [FIRST], {}), CREATE,
      Cleared(Taken(CLEAR), IRAN_AGAIN, KHAREJ_AGAIN, {}))
  {
    assert !Manages(FIRST, 1, "edge") && FirstManaged([FIRST], 1, "edge") == None;
    var h0, h1 := Small(UNDONE + [CLEAR], [FIRST], {}), Small(UNDONE + [Taken(CLEAR)], [FIRST], {});
    ClaimLeads(h0, 3, 1);
    assert h0.jobs[3 := Taken(CLEAR)] == h1.jobs;
    assert !NameTaken([FIRST], "edge", 1, 2);
    assert h1.jobs + [IRAN_AGAIN] + [KHAREJ_AGAIN] == UNDONE + [Taken(CLEAR), IRAN_AGAIN, KHAREJ_AGAIN];
  }

  lemma ClearedRun()
    ensures RunFrom([], ClearScript()) == Cleared(Taken(CLEAR), IRAN_AGAIN, KHAREJ_AGAIN, {})
  {
    var s := RolledBackScript();
    RolledBackRun();
    ClearLeads();
    hide Leads, RunFrom, RolledBackHub, Cleared, RolledBackScript;
    Extend(s, RolledBackHub(), REMOVE_TUNNEL, Small(UNDONE + [CLEAR], [FIRST], {}));
    Extend(s + [REMOVE_TUNNEL], Small(UNDONE + [CLEAR], [FIRST], {}), ClaimOf(1),
      Small(UNDONE + [Taken(CLEAR)], [FIRST], {}));
    Extend(s + [REMOVE_TUNNEL] + [ClaimOf(1)], Small(UNDONE + [Taken(CLEAR)], [FIRST], {}), CREATE,
           Cleared(Taken(CLEAR), IRAN_AGAIN, KHAREJ_AGAIN, {}));
  }

  lemma LaterDeploysLead()
    ensures Leads(Cleared(Taken(CLEAR), IRAN_AGAIN, KHAREJ_AGAIN, {}), ClaimOf(1),
                  Cleared(Taken(CLEAR), Taken(IRAN_AGAIN), KHAREJ_AGAIN, {}))
    ensures Leads(Cleared(Taken(CLEAR), Taken(IRAN_AGAIN), KHAREJ_AGAIN, {}), ResultOf(4, 1, true),
                  Cleared(Taken(CLEAR), DONE_IRAN, KHAREJ_AGAIN, {AT_IRAN}))
  {
    var h0 := Cleared(Taken(CLEAR), IRAN_AGAIN, KHAREJ_AGAIN, {});
    var h1 := Cleared(Taken(CLEAR), Taken(IRAN_AGAIN), KHAREJ_AGAIN, {});
    ClaimLeads(h0, 4, 1);
    assert h0.jobs[4 := Taken(IRAN_AGAIN)] == h1.jobs;
    assert !Links(FIRST, 4) && FirstLinked(h1.deps, 4) == Some(1);
    assert h1.jobs[4 := DONE_IRAN] == Cleared(Taken(CLEAR), DONE_IRAN, KHAREJ_AGAIN, {AT_IRAN}).jobs;
    QuietResult(h1, 4, true, Cleared(Taken(CLEAR), DONE_IRAN, KHAREJ_AGAIN, {AT_IRAN}));
  }

  lemma LaterKharejLeads()
    ensures Leads(Cleared(Taken(CLEAR), DONE_IRAN, KHAREJ_AGAIN, {AT_IRAN}), ClaimOf(2),
                  Cleared(Taken(CLEAR), DONE_IRAN, Taken(KHAREJ_AGAIN), {AT_IRAN}))
    ensures Leads(Cleared(Taken(CLEAR), DONE_IRAN, Taken(KHAREJ_AGAIN), {AT_IRAN}), ResultOf(5, 2, true),
                  Cleared(Taken(CLEAR), DONE_IRAN, DONE_KHAREJ, Both()))
  {
    var h0 := Cleared(Taken(CLEAR), DONE_IRAN, KHAREJ_AGAIN, {AT_IRAN});
    var h1 := Cleared(Taken(CLEAR), DONE_IRAN, Taken(KHAREJ_AGAIN), {AT_IRAN});
    ClaimLeads(h0, 5, 2);
    assert h0.jobs[5 := Taken(KHAREJ_AGAIN)] == h1.jobs;
    assert !Links(FIRST, 5) && FirstLinked(h1.deps, 5) == Some(1);
    assert h1.jobs[5 := DONE_KHAREJ] == Cleared(Taken(CLEAR), DONE_IRAN, DONE_KHAREJ, Both()).jobs;
    QuietResult(h1, 5, true, Cleared(Taken(CLEAR), DONE_IRAN, DONE_KHAREJ, Both()));
  }

  lemma ClearingLeads()
    ensures Leads(Cleared(Taken(CLEAR), DONE_IRAN, DONE_KHAREJ, Both()), CycleEvent(301),
                  Cleared(CLEAR, DONE_IRAN, DONE_KHAREJ, Both()))
    ensures Leads(Cleared(CLEAR, DONE_IRAN, DONE_KHAREJ, Both()), ClaimOf(1),
                  Cleared(Taken(CLEAR), DONE_IRAN, DONE_KHAREJ, Both()))
    ensures Leads(Cleared(Taken(CLEAR), DONE_IRAN, DONE_KHAREJ, Both()), ResultOf(3, 1, true),
                  Cleared(Finished(CLEAR, Completed), DONE_IRAN, DONE_KHAREJ, {AT_KHAREJ}))
  {
    var h0, h1 := Cleared(Taken(CLEAR), DONE_IRAN, DONE_KHAREJ, Both()), Cleared(CLEAR, DONE_IRAN, DONE_KHAREJ, Both());
    CycleLeads(h0, 3);
    assert h0.jobs[3 := CLEAR] == h1.jobs;
    ClaimLeads(h1, 3, 1);
    assert h1.jobs[3 := Taken(CLEAR)] == h0.jobs;
    assert !Links(FIRST, 3) && !Links(LATER, 3) && FirstLinked(h0.deps, 3) == None;
    assert h0.jobs[3 := Finished(CLEAR, Completed)] ==
      Cleared(Finished(CLEAR, Completed), DONE_IRAN, DONE_KHAREJ, {AT_KHAREJ}).jobs;
    assert Both() - {AT_IRAN} == {AT_KHAREJ};
    QuietResult(h0, 3, true, Cleared(Finished(CLEAR, Completed), DONE_IRAN, DONE_KHAREJ, {AT_KHAREJ}));
  }

  function LaterScript(): seq<Event> {
    ClearScript() + [ClaimOf(1)] + [ResultOf(4, 1, true)] + [ClaimOf(2)] + [ResultOf(5, 2, true)]
  }

  lemma LaterRun()
    ensures RunFrom([], LaterScript()) == Cleared(Taken(CLEAR), DONE_IRAN, DONE_KHAREJ, Both())
  {
    var s := ClearScript();
    ClearedRun();
    LaterDeploysLead();
    LaterKharejLeads();
    hide Leads, RunFrom, Cleared, ClearScript;
    Extend(s, Cleared(Taken(CLEAR), IRAN_AGAIN, KHAREJ_AGAIN, {}), ClaimOf(1),
           Cleared(Taken(CLEAR), Taken(IRAN_AGAIN), KHAREJ_AGAIN, {}));
    Extend(s + [ClaimOf(1)], Cleared(Taken(CLEAR), Taken(IRAN_AGAIN), KHAREJ_AGAIN, {}), ResultOf(4, 1, true),
           Cleared(Taken(CLEAR), DONE_IRAN, KHAREJ_AGAIN, {AT_IRAN}));
    Extend(s + [ClaimOf(1)] + [ResultOf(4, 1, true)], Cleared(Taken(CLEAR), DONE_IRAN, KHAREJ_AGAIN, {AT_IRAN}),
           ClaimOf(2), Cleared(Taken(CLEAR), DONE_IRAN, Taken(KHAREJ_AGAIN), {AT_IRAN}));
    Extend(s + [ClaimOf(1)] + [ResultOf(4, 1, true)] + [ClaimOf(2)],
           Cleared(Taken(CLEAR), DONE_IRAN, Taken(KHAREJ_AGAIN), {AT_IRAN}), ResultOf(5, 2, true),
           Cleared(Taken(CLEAR), DONE_IRAN, DONE_KHAREJ, Both()));
  }

  function UninstallScript(): seq<Event> { LaterScript() + [CycleEvent(301)] + [ClaimOf(1)] + [ResultOf(3, 1, true)] }

  lemma UninstalledRun()
    ensures RunFrom([], UninstallScript()) == Cleared(Finished(CLEAR, Completed), DONE_IRAN, DONE_KHAREJ, {AT_KHAREJ})
  {
    var s := LaterScript();
    LaterRun();
    ClearingLeads();
    hide Leads, RunFrom, LaterScript, Cleared;
    Extend(s, Cleared(Taken(CLEAR), DONE_IRAN, DONE_KHAREJ, Both()), CycleEvent(301),
           Cleared(CLEAR, DONE_IRAN, DONE_KHAREJ, Both()));
    Extend(s + [CycleEvent(301)], Cleared(CLEAR, DONE_IRAN, DONE_KHAREJ, Both()), ClaimOf(1),
           Cleared(Taken(CLEAR), DONE_IRAN, DONE_KHAREJ, Both()));
    Extend(s + [CycleEvent(301)] + [ClaimOf(1)], Cleared(Taken(CLEAR), DONE_IRAN, DONE_KHAREJ, Both()),
           ResultOf(3, 1, true), Cleared(Finished(CLEAR, Completed), DONE_IRAN, DONE_KHAREJ, {AT_KHAREJ}));
  }

  /** A removal that no row links takes the tunnel of a deployment created while it was pending. */
  lemma UninstallCanTakeNewTunnel()
    ensures exists events: seq<Event> :: IranTaken(RunFrom([], events))
  {
    UninstalledRun();
    assert IranTaken(Cleared(Finished(CLEAR, Completed), DONE_IRAN, DONE_KHAREJ, {AT_KHAREJ}));
    hide RunFrom, Cleared, UninstallScript, IranTaken;
    assert IranTaken(RunFrom([], UninstallScript()));
  }
}
