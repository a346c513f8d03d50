/** Runs on which a rolled-back deployment comes back after another one has taken its name: two live rows of one
    name, and a removal that takes away the other row's tunnel. */
module RevivalTrap {
  import opened Common
  import opened JobQueue
  import opened HubState
  import opened Saga
  import opened SagaTheorems
  import opened NameUniqueness
  import opened Traces

  const UNDO := NewJob(1, Remove(0, Iran))

  /** Kharej's deploy has failed, and this is how far Iran's removal is. */
  function RollingBackWith(undo: Job): Hub {
    Small([Finished(IRAN, Completed), Finished(KHAREJ, Failed), undo],
          [ROW.(iranJob := 2, lifecycle := RollingBack)], {AT_IRAN})
  }

  const UNDONE := [Finished(IRAN, Completed), Finished(KHAREJ, Failed), Finished(UNDO, Completed)]
  const FIRST := ROW.(iranJob := 2, lifecycle := RolledBack)

  function RolledBackHub(): Hub { Small(UNDONE, [FIRST], {}) }

  function RolledBackScript(): seq<Event> {
    HalfScript() + [ResultOf(1, 2, false)] + [ClaimOf(1)] + [ResultOf(2, 1, true)]
  }

  lemma SplitLeads()
    ensures Leads(HalfDeployed(), ResultOf(1, 2, false), RollingBackWith(UNDO))
  {
    var h1 := Record(HalfDeployed(), 1, Failed, "", false);
    assert h1.installed == {AT_IRAN};
    assert Links(h1.deps[0], 1) && FirstLinked(h1.deps, 1) == Some(0);
    ResultLeads(HalfDeployed(), 1, false, RollingBackWith(UNDO));
  }

  lemma UndoneLeads()
    ensures Leads(RollingBackWith(Taken(UNDO)), ResultOf(2, 1, true), RolledBackHub())
  {
    var h1 := Record(RollingBackWith(Taken(UNDO)), 2, Completed, "", false);
    assert h1.installed == {};
    assert Links(h1.deps[0], 2) && FirstLinked(h1.deps, 2) == Some(0);
    ResultLeads(RollingBackWith(Taken(UNDO)), 2, true, RolledBackHub());
  }

  lemma RolledBackRun()
    ensures RunFrom([], RolledBackScript()) == RolledBackHub()
  {
    var s := HalfScript();
    var h0, h1 := RollingBackWith(UNDO), RollingBackWith(Taken(UNDO));
    HalfDeployedRun();
    SplitLeads();
    ClaimLeads(h0, 2, 1);
    assert h0.jobs[2 := Taken(h0.jobs[2])] == h1.jobs;
    UndoneLeads();
    hide Leads, RunFrom, HalfDeployed, RolledBackHub;
    Extend(s, HalfDeployed(), ResultOf(1, 2, false), h0);
    Extend(s + [ResultOf(1, 2, false)], h0, ClaimOf(1), h1);
    Extend(s + [ResultOf(1, 2, false)] + [ClaimOf(1)], h1, ResultOf(2, 1, true), RolledBackHub());
  }

  // ---- the name is taken -------------------------------------------------------------------

  const SECOND := Deployment(PLUGIN, "edge", 1, 2, 3, 4, Active)
  const IRAN_AGAIN := NewJob(1, Deploy(1, Iran))
  const KHAREJ_AGAIN := NewJob(2, Deploy(1, Kharej))

  /** A second deployment of that name, and how far its deploys are. */
  function Reused(iran: Job, kharej: Job, installed: set<Tunnel>): Hub {
    Small(UNDONE + [iran, kharej], [FIRST, SECOND], installed)
  }

  lemma ReuseLeads()
    ensures Leads(RolledBackHub(), CREATE, Reused(IRAN_AGAIN, KHAREJ_AGAIN, {}))
  {
    assert !NameTaken(RolledBackHub().deps, "edge", 1, 2);
    assert RolledBackHub().jobs + [IRAN_AGAIN] + [KHAREJ_AGAIN] == UNDONE + [IRAN_AGAIN, KHAREJ_AGAIN];
  }

  function ReuseScript(): seq<Event> { RolledBackScript() + [CREATE] }

  lemma ReusedRun()
    ensures RunFrom([], ReuseScript()) == Reused(IRAN_AGAIN, KHAREJ_AGAIN, {})
  {
    RolledBackRun();
    ReuseLeads();
    hide Leads, RunFrom, RolledBackHub, Reused, RolledBackScript;
    Extend(RolledBackScript(), RolledBackHub(), CREATE, Reused(IRAN_AGAIN, KHAREJ_AGAIN, {}));
  }

  lemma RetryIsARevival()
    ensures RevivesTakenName(true, Reused(IRAN_AGAIN, KHAREJ_AGAIN, {}), RetryEvent(0, true))
  {
    var deps := Reused(IRAN_AGAIN, KHAREJ_AGAIN, {}).deps;
    assert Clash(true, deps[1], deps[0].(lifecycle := Active));
  }

  /** The invariant really breaks: after the rollback the name is free, a second deployment takes
      it, and a retry of the first makes both active. */
  lemma NamesCanClash()
    ensures exists events: seq<Event> :: !NamesUnique(true, RunFrom([], events).deps)
  {
    var h := Reused(IRAN_AGAIN, KHAREJ_AGAIN, {});
    ReusedRun();
    RetryIsARevival();
    hide Reused, ReuseScript, NamesUnique, RevivesTakenName;
    RunAppend(Empty([]), ReuseScript(), RetryEvent(0, true));
    RevivalClashes(true, h, RetryEvent(0, true));
    assert !NamesUnique(true, RunFrom([], ReuseScript() + [RetryEvent(0, true)]).deps);
  }

  // ---- and its tunnel goes -----------------------------------------------------------------

  const DONE_IRAN := Finished(IRAN_AGAIN, Completed)
  const DONE_KHAREJ := Finished(KHAREJ_AGAIN, Completed)

  function ReusedScript(): seq<Event> {
    ReuseScript() + [ClaimOf(1)] + [ResultOf(3, 1, true)] + [ClaimOf(2)] + [ResultOf(4, 2, true)]
  }

  lemma DeploysLead()
    ensures Leads(Reused(IRAN_AGAIN, KHAREJ_AGAIN, {}), ClaimOf(1), Reused(Taken(IRAN_AGAIN), KHAREJ_AGAIN, {}))
    ensures Leads(Reused(Taken(IRAN_AGAIN), KHAREJ_AGAIN, {}), ResultOf(3, 1, true),
                  Reused(DONE_IRAN, KHAREJ_AGAIN, {AT_IRAN}))
  {
    var h0, h1 := Reused(IRAN_AGAIN, KHAREJ_AGAIN, {}), Reused(Taken(IRAN_AGAIN), KHAREJ_AGAIN, {});
    var h2 := Reused(DONE_IRAN, KHAREJ_AGAIN, {AT_IRAN});
    ClaimLeads(h0, 3, 1);
    assert h0.jobs[3 := Taken(h0.jobs[3])] == h1.jobs;
    assert !Links(FIRST, 3) && FirstLinked(h1.deps, 3) == Some(1);
    assert h1.jobs[3 := Finished(IRAN_AGAIN, Completed)] == h2.jobs;
    QuietResult(h1, 3, true, h2);
  }

  lemma OtherDeploysLead()
    ensures Leads(Reused(DONE_IRAN, KHAREJ_AGAIN, {AT_IRAN}), ClaimOf(2),
      Reused(DONE_IRAN, Taken(KHAREJ_AGAIN), {AT_IRAN}))
    ensures Leads(Reused(DONE_IRAN, Taken(KHAREJ_AGAIN), {AT_IRAN}), ResultOf(4, 2, true),
                  Reused(DONE_IRAN, DONE_KHAREJ, Both()))
  {
    var h0, h1 := Reused(DONE_IRAN, KHAREJ_AGAIN, {AT_IRAN}), Reused(DONE_IRAN, Taken(KHAREJ_AGAIN), {AT_IRAN});
    var h2 := Reused(DONE_IRAN, DONE_KHAREJ, Both());
    ClaimLeads(h0, 4, 2);
    assert h0.jobs[4 := Taken(h0.jobs[4])] == h1.jobs;
    assert !Links(FIRST, 4) && FirstLinked(h1.deps, 4) == Some(1);
    assert h1.jobs[4 := Finished(KHAREJ_AGAIN, Completed)] == h2.jobs;
    QuietResult(h1, 4, true, h2);
  }

  lemma SecondDeployedRun()
    ensures RunFrom([], ReusedScript()) == Reused(DONE_IRAN, DONE_KHAREJ, Both())
  {
    var s := ReuseScript();
    ReusedRun();
    DeploysLead();
    OtherDeploysLead();
    hide Leads, RunFrom, Reused, ReuseScript;
    Extend(s, Reused(IRAN_AGAIN, KHAREJ_AGAIN, {}), ClaimOf(1), Reused(Taken(IRAN_AGAIN), KHAREJ_AGAIN, {}));
    Extend(s + [ClaimOf(1)], Reused(Taken(IRAN_AGAIN), KHAREJ_AGAIN, {}), ResultOf(3, 1, true),
           Reused(DONE_IRAN, KHAREJ_AGAIN, {AT_IRAN}));
    Extend(s + [ClaimOf(1)] + [ResultOf(3, 1, true)], Reused(DONE_IRAN, KHAREJ_AGAIN, {AT_IRAN}), ClaimOf(2),
           Reused(DONE_IRAN, Taken(KHAREJ_AGAIN), {AT_IRAN}));
    Extend(s + [ClaimOf(1)] + [ResultOf(3, 1, true)] + [ClaimOf(2)], Reused(DONE_IRAN, Taken(KHAREJ_AGAIN), {AT_IRAN}),
           ResultOf(4, 2, true), Reused(DONE_IRAN, DONE_KHAREJ, Both()));
  }

  const NO_IRAN := NewJob(1, Remove(0, Iran))
  const NO_KHAREJ := NewJob(2, Remove(0, Kharej))

  /** The first deployment is being removed once more. */
  function Revived(noIran: Job, installed: set<Tunnel>): Hub {
    Small(UNDONE + [DONE_IRAN, DONE_KHAREJ, noIran, NO_KHAREJ],
          [ROW.(iranJob := 5, kharejJob := 6, lifecycle := Removing), SECOND], installed)
  }

  lemma RevivalLeads()
    ensures Leads(Reused(DONE_IRAN, DONE_KHAREJ, Both()), RemoveEvent(0), Revived(NO_IRAN, Both()))
  {
    var h := Reused(DONE_IRAN, DONE_KHAREJ, Both());
    assert h.jobs + [NO_IRAN] + [NO_KHAREJ] == Revived(NO_IRAN, Both()).jobs;
  }

  lemma TakingLeads()
    ensures Leads(Revived(NO_IRAN, Both()), ClaimOf(1), Revived(Taken(NO_IRAN), Both()))
    ensures Leads(Revived(Taken(NO_IRAN), Both()), ResultOf(5, 1, true),
      Revived(Finished(NO_IRAN, Completed), {AT_KHAREJ}))
  {
    var h0, h1 := Revived(NO_IRAN, Both()), Revived(Taken(NO_IRAN), Both());
    var h2 := Revived(Finished(NO_IRAN, Completed), {AT_KHAREJ});
    ClaimLeads(h0, 5, 1);
    assert h0.jobs[5 := Taken(h0.jobs[5])] == h1.jobs;
    assert FirstLinked(h1.deps, 5) == Some(0);
    assert h1.jobs[5 := Finished(NO_IRAN, Completed)] == h2.jobs;
    assert Both() - {AT_IRAN} == {AT_KHAREJ};
    QuietResult(h1, 5, true, h2);
  }

  function TakingScript(): seq<Event> { ReusedScript() + [RemoveEvent(0)] + [ClaimOf(1)] + [ResultOf(5, 1, true)] }

  lemma TakenRun()
    ensures RunFrom([], TakingScript()) == Revived(Finished(NO_IRAN, Completed), {AT_KHAREJ})
  {
    var s := ReusedScript();
    SecondDeployedRun();
    RevivalLeads();
    TakingLeads();
    hide Leads, RunFrom, Reused, Revived, ReusedScript;
    Extend(s, Reused(DONE_IRAN, DONE_KHAREJ, Both()), RemoveEvent(0), Revived(NO_IRAN, Both()));
    Extend(s + [RemoveEvent(0)], Revived(NO_IRAN, Both()), ClaimOf(1), Revived(Taken(NO_IRAN), Both()));
    Extend(s + [RemoveEvent(0)] + [ClaimOf(1)], Revived(Taken(NO_IRAN), Both()), ResultOf(5, 1, true),
           Revived(Finished(NO_IRAN, Completed), {AT_KHAREJ}));
  }

  /** The second deployment is active, its deploys have completed, and Iran has lost the tunnel. */
  predicate IranTaken(h: Hub) {
    && |h.deps| == 2 && h.deps[1].lifecycle.Active?
    && h.deps[1].iranJob < |h.jobs| && h.jobs[h.deps[1].iranJob] == DONE_IRAN
    && h.deps[1].kharejJob < |h.jobs| && h.jobs[h.deps[1].kharejJob] == DONE_KHAREJ
    && h.deps[1].Place(Iran) !in h.installed && h.deps[1].Place(Kharej) in h.installed
  }

  lemma RemovalCanTakeAnothersTunnel()
    ensures exists events: seq<Event> :: IranTaken(RunFrom([], events))
  {
    TakenRun();
    assert IranTaken(Revived(Finished(NO_IRAN, Completed), {AT_KHAREJ}));
    hide RunFrom, Revived, TakingScript, IranTaken;
    assert IranTaken(RunFrom([], TakingScript()));
  }
}
