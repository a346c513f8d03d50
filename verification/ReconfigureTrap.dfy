/** A run on which a reconfiguration of a settled deployment leaves one end behind: the second deploy succeeds on Iran
    only, and the rollback removes the tunnel there. */
module ReconfigureTrap {
  import opened Common
  import opened JobQueue
  import opened HubState
  import opened Saga
  import opened SagaTheorems
  import opened Traces

  const UNDO := NewJob(1, Remove(0, Iran))

  /** How far the two new deploys are. */
  function Redeploying(iran: Job, kharej: Job): Hub {
    Small(Deployed().jobs + [iran, kharej], [ROW.(iranJob := 2, kharejJob := 3)], Both())
  }

  function Undoing(undo: Job, lifecycle: Lifecycle, installed: set<Tunnel>): Hub {
    Small(Deployed().jobs + [Finished(IRAN, Completed), Finished(KHAREJ, Failed), undo],
          [ROW.(iranJob := 4, kharejJob := 3, lifecycle := lifecycle)], installed)
  }

  lemma ReconfigureLeads()
    ensures Leads(Deployed(), ReconfigureEvent(0, true), Redeploying(IRAN, KHAREJ))
  {
    var h := Deployed();
    assert h.jobs + [IRAN] + [KHAREJ] == h.jobs + [IRAN, KHAREJ];
  }

  lemma SplitLeads()
    ensures Leads(Redeploying(Finished(IRAN, Completed), Taken(KHAREJ)), ResultOf(3, 2, false, true),
      Undoing(UNDO, RollingBack, Both()))
  {
    var h := Redeploying(Finished(IRAN, Completed), Taken(KHAREJ));
    var h1 := Record(h, 3, Failed, "", true);
    assert Links(h1.deps[0], 3) && FirstLinked(h1.deps, 3) == Some(0);
    assert h1.jobs + [UNDO] == Undoing(UNDO, RollingBack, Both()).jobs;
    ResultLeads(h, 3, false, Undoing(UNDO, RollingBack, Both()), true);
  }

  lemma UndoLeads()
    ensures Leads(Undoing(UNDO, RollingBack, Both()), ClaimOf(1), Undoing(Taken(UNDO), RollingBack, Both()))
  {
    var h0 := Undoing(UNDO, RollingBack, Both());
    ClaimLeads(h0, 4, 1);
    assert h0.jobs[4 := Taken(UNDO)] == Undoing(Taken(UNDO), RollingBack, Both()).jobs;
    hide Leads;
  }

  lemma UndoneLeads()
    ensures Leads(Undoing(Taken(UNDO), RollingBack, Both()), ResultOf(4, 1, true),
                  Undoing(Finished(UNDO, Completed), RolledBack, {AT_KHAREJ}))
  {
    var h := Undoing(Taken(UNDO), RollingBack, Both());
    var h1 := Record(h, 4, Completed, "", false);
    assert Links(h1.deps[0], 4) && FirstLinked(h1.deps, 4) == Some(0);
    assert h1.installed == {AT_KHAREJ};
    ResultLeads(h, 4, true, Undoing(Finished(UNDO, Completed), RolledBack, {AT_KHAREJ}));
  }

  lemma IranLeads()
    ensures Leads(Redeploying(IRAN, KHAREJ), ClaimOf(1), Redeploying(Taken(IRAN), KHAREJ))
    ensures Leads(Redeploying(Taken(IRAN), KHAREJ), ResultOf(2, 1, true),
      Redeploying(Finished(IRAN, Completed), KHAREJ))
  {
    var h0, h1 := Redeploying(IRAN, KHAREJ), Redeploying(Taken(IRAN), KHAREJ);
    ClaimLeads(h0, 2, 1);
    assert h0.jobs[2 := Taken(h0.jobs[2])] == h1.jobs;
    QuietResult(h1, 2, true, Redeploying(Finished(IRAN, Completed), KHAREJ));
    hide Leads;
  }

  function IranScript(): seq<Event> {
    DeployScript() + [ReconfigureEvent(0, true)] + [ClaimOf(1)] + [ResultOf(2, 1, true)]
  }

  lemma IranRun()
    ensures RunFrom([], IranScript()) == Redeploying(Finished(IRAN, Completed), KHAREJ)
  {
    var h0, h1, h2 := Redeploying(IRAN, KHAREJ), Redeploying(Taken(IRAN), KHAREJ),
      Redeploying(Finished(IRAN, Completed), KHAREJ);
    DeployedRun();
    ReconfigureLeads();
    IranLeads();
    hide Leads, RunFrom, Deployed, Redeploying;
    var s := DeployScript();
    Extend(s, Deployed(), ReconfigureEvent(0, true), h0);
    Extend(s + [ReconfigureEvent(0, true)], h0, ClaimOf(1), h1);
    Extend(s + [ReconfigureEvent(0, true)] + [ClaimOf(1)], h1, ResultOf(2, 1, true), h2);
  }

  function SplitScript(): seq<Event> { IranScript() + [ClaimOf(2)] + [ResultOf(3, 2, false, true)] }

  lemma SplitRun()
    ensures RunFrom([], SplitScript()) == Undoing(UNDO, RollingBack, Both())
  {
    var h2, h3 := Redeploying(Finished(IRAN, Completed), KHAREJ), Redeploying(Finished(IRAN, Completed), Taken(KHAREJ));
    IranRun();
    ClaimLeads(h2, 3, 2);
    SplitLeads();
    assert h2.jobs[3 := Taken(h2.jobs[3])] == h3.jobs;
    hide Leads, RunFrom, Deployed, IranScript;
    Extend(IranScript(), h2, ClaimOf(2), h3);
    Extend(IranScript() + [ClaimOf(2)], h3, ResultOf(3, 2, false, true), Undoing(UNDO, RollingBack, Both()));
  }

  /** The row is rolled back, and Kharej alone still holds the tunnel. */
  lemma ReconfigureCanSplitTheEnds()
    ensures exists events: seq<Event> :: var h := RunFrom([], events);
      |h.deps| == 1 && h.deps[0].lifecycle == RolledBack && h.installed == {AT_KHAREJ}
  {
    var h0, h1 := Undoing(UNDO, RollingBack, Both()), Undoing(Taken(UNDO), RollingBack, Both());
    var h2 := Undoing(Finished(UNDO, Completed), RolledBack, {AT_KHAREJ});
    SplitRun();
    UndoLeads();
    UndoneLeads();
    hide Leads, RunFrom, SplitScript, Deployed;
    Extend(SplitScript(), h0, ClaimOf(1), h1);
    Extend(SplitScript() + [ClaimOf(1)], h1, ResultOf(4, 1, true), h2);
    assert RunFrom([], SplitScript() + [ClaimOf(1)] + [ResultOf(4, 1, true)]) == h2;
  }
}
