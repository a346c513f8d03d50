/** Auto-Heal: how often services are restarted over whole runs.

    Times are readings of the wall clock; every call of time.time() is a reading of its own. */
module AutoHeal {

  const HOUR := 3600.0

  datatype Policy = Policy(enabled: bool, cooldownSeconds: int, maxRestartsPerHour: int) {
    function Cooldown(): real { if cooldownSeconds < 60 then 60.0 else cooldownSeconds as real }

    function Maximum(): nat {
      if maxRestartsPerHour < 1 then 1 else if maxRestartsPerHour > 6 then 6 else maxRestartsPerHour
    }
  }

  /** A report in the loop: whether it is down, names a service and may be restarted; the clock at the check and after
      the command; whether the command succeeds. */
  datatype Report = Report(service: string, eligible: bool, check: real, ok: bool, now: real)

  /** A collection cycle: `filter(i)` is the clock when the i-th entry of the history is looked at, all readings
      before `filtered`. The state of a cycle is merged unless the collection raises afterwards. */
  datatype Cycle = Cycle(policy: Policy, filter: nat -> real, filtered: real, reports: seq<Report>, merged: bool)

  /** A restart that took place, with the policy in force. */
  datatype Restart = Restart(service: string, time: real, policy: Policy)

  /** `log` is history of the run, not stored. */
  datatype State = State(history: seq<real>, last: map<string, real>, log: seq<Restart>)

  function LastRestart(s: State, service: string): real { if service in s.last then s.last[service] else 0.0 }

  function Kept(history: seq<real>, filter: nat -> real): seq<real> {
    if history == [] then []
    else
      var n := |history| - 1;
      var rest := Kept(history[..n], filter);
      if filter(n) - history[n] < HOUR then rest + [history[n]] else rest
  }

  predicate Restarts(s: State, policy: Policy, r: Report) {
    r.eligible && r.check - LastRestart(s, r.service) >= policy.Cooldown() && |s.history| < policy.Maximum() && r.ok
  }

  function AfterReport(s: State, policy: Policy, r: Report): State {
    if Restarts(s, policy, r) then
      State(s.history + [r.now], s.last[r.service := r.now], s.log + [Restart(r.service, r.now, policy)])
    else s
  }

  function AfterReports(s: State, policy: Policy, reports: seq<Report>): State {
    if reports == [] then s
    else AfterReport(AfterReports(s, policy, reports[..|reports| - 1]), policy, reports[|reports| - 1])
  }

  /** maybe_autoheal */
  function Healed(s: State, policy: Policy, filter: nat -> real, reports: seq<Report>): State {
    if !policy.enabled then s else AfterReports(s.(history := Kept(s.history, filter)), policy, reports)
  }

  function AfterCycle(s: State, c: Cycle): State {
    var healed := Healed(s, c.policy, c.filter, c.reports);
    if c.merged then healed else s.(log := healed.log)
  }

  function Run(cycles: seq<Cycle>): State {
    if cycles == [] then State([], map[], []) else AfterCycle(Run(cycles[..|cycles| - 1]), cycles[|cycles| - 1])
  }

  // ---- the clock ---------------------------------------------------------------------

  function EndOfReports(start: real, reports: seq<Report>): real {
    if reports == [] then start else reports[|reports| - 1].now
  }

  predicate ReportsInOrder(start: real, reports: seq<Report>) {
    reports == [] ||
    (ReportsInOrder(start, reports[..|reports| - 1]) &&
     EndOfReports(start, reports[..|reports| - 1]) <= reports[|reports| - 1].check <= reports[|reports| - 1].now)
  }

  ghost predicate CycleInOrder(clock: real, c: Cycle) {
    clock <= c.filtered && (forall i :: clock <= c.filter(i) <= c.filtered) && ReportsInOrder(c.filtered, c.reports)
  }

  function EndOfRun(cycles: seq<Cycle>): real {
    if cycles == [] then 0.0 else EndOfReports(cycles[|cycles| - 1].filtered, cycles[|cycles| - 1].reports)
  }

  /** The readings of a whole run never go back. */
  ghost predicate RunInOrder(cycles: seq<Cycle>) {
    cycles == [] ||
    (RunInOrder(cycles[..|cycles| - 1]) &&
     CycleInOrder(EndOfRun(cycles[..|cycles| - 1]), cycles[|cycles| - 1]))
  }

  // ---- counting ----------------------------------------------------------------------

  /** Entries less than an hour old at time x. */
  function Recent(history: seq<real>, x: real): nat {
    if history == [] then 0
    else Recent(history[..|history| - 1], x) + (if x - history[|history| - 1] < HOUR then 1 else 0)
  }

  function RecentLog(log: seq<Restart>, x: real): nat {
    if log == [] then 0
    else RecentLog(log[..|log| - 1], x) + (if x - log[|log| - 1].time < HOUR then 1 else 0)
  }

  /** Restarts in the window from t, an hour long, its end excluded. */
  function InWindow(log: seq<Restart>, t: real): nat {
    if log == [] then 0
    else InWindow(log[..|log| - 1], t) + (if t <= log[|log| - 1].time < t + HOUR then 1 else 0)
  }

  lemma {:induction false} RecentIsBounded(history: seq<real>, x: real)
    ensures Recent(history, x) <= |history|
  {
    if history != [] { RecentIsBounded(history[..|history| - 1], x); }
  }

  /** Filtering drops nothing that is still recent later. */
  lemma {:induction false} KeptIsRecent(history: seq<real>, filter: nat -> real, x: real)
    requires forall i :: filter(i) <= x
    ensures Recent(Kept(history, filter), x) == Recent(history, x)
  {
    if history != [] {
      var n := |history| - 1;
      KeptIsRecent(history[..n], filter, x);
      var kept := Kept(history, filter);
      if filter(n) - history[n] < HOUR {
        assert kept[..|kept| - 1] == Kept(history[..n], filter);
      }
    }
  }

  lemma {:induction false} WindowIsRecent(log: seq<Restart>, t: real, x: real)
    requires x < t + HOUR
    ensures InWindow(log, t) <= RecentLog(log, x)
  {
    if log != [] { WindowIsRecent(log[..|log| - 1], t, x); }
  }

  // ---- the invariant -----------------------------------------------------------------

  /** Each restart was within the limit of its policy, counting it and those less than an hour before it. */
  ghost predicate WithinLimit(log: seq<Restart>) {
    forall k :: 0 <= k < |log| ==> RecentLog(log[..k + 1], log[k].time) <= log[k].policy.Maximum() <= 6
  }

  /** Restarts of one service keep the cooldown of the later one. */
  ghost predicate Spaced(log: seq<Restart>) {
    forall i, j :: 0 <= i < j < |log| && log[i].service == log[j].service ==>
      log[j].time - log[i].time >= log[j].policy.Cooldown() >= 60.0
  }

  /** What the stored state knows of the log. */
  ghost predicate Remembers(s: State, clock: real) {
    RecentAlike(s, clock) && LastCovers(s, clock) && LastIsLogged(s)
  }

  ghost predicate RecentAlike(s: State, clock: real) {
    forall x :: x >= clock ==> RecentLog(s.log, x) == Recent(s.history, x)
  }

  ghost predicate LastCovers(s: State, clock: real) {
    forall i :: 0 <= i < |s.log| ==>
      s.log[i].service in s.last && s.log[i].time <= s.last[s.log[i].service] && s.log[i].time <= clock
  }

  ghost predicate LastIsLogged(s: State) {
    forall service :: service in s.last ==> Logged(s.log, service, s.last[service])
  }

  predicate Logged(log: seq<Restart>, service: string, time: real) {
    exists i :: 0 <= i < |log| && log[i].service == service && log[i].time == time
  }

  ghost predicate Inv(s: State, clock: real) { Remembers(s, clock) && WithinLimit(s.log) && Spaced(s.log) }

  lemma RestartRemembers(s: State, policy: Policy, r: Report, clock: real)
    requires Remembers(s, clock) && clock <= r.check <= r.now && Restarts(s, policy, r)
    ensures Remembers(AfterReport(s, policy, r), r.now)
  {
    RestartIsLogged(s, policy, r);
    assert LastCovers(AfterReport(s, policy, r), r.now);
    RestartIsRecent(s, policy, r, clock);
    hide LastIsLogged, LastCovers, RecentAlike, Restarts, AfterReport;
  }

  lemma RestartIsRecent(s: State, policy: Policy, r: Report, clock: real)
    requires RecentAlike(s, clock) && clock <= r.now
    ensures RecentAlike(AfterReport(s, policy, r), r.now)
  {
    var s' := AfterReport(s, policy, r);
    assert s'.log[..|s.log|] == s.log && s'.history[..|s.history|] == s.history;
    forall x | x >= r.now ensures RecentLog(s'.log, x) == Recent(s'.history, x) {
      assert x >= clock;
    }
  }

  lemma RestartIsLogged(s: State, policy: Policy, r: Report)
    requires LastIsLogged(s)
    ensures LastIsLogged(AfterReport(s, policy, r))
  {
    var s' := AfterReport(s, policy, r);
    if Restarts(s, policy, r) {
      assert s'.log[|s.log|].service == r.service && s'.log[|s.log|].time == r.now;
      forall service | service in s'.last && service != r.service ensures Logged(s'.log, service, s'.last[service]) {
        assert Logged(s.log, service, s.last[service]);
        var i :| 0 <= i < |s.log| && s.log[i].service == service && s.log[i].time == s.last[service];
        assert s'.log[i] == s.log[i];
      }
    }
  }

  lemma RestartWithinLimit(s: State, policy: Policy, r: Report)
    requires WithinLimit(s.log) && RecentLog(s.log, r.now) <= |s.history| && Restarts(s, policy, r)
    ensures WithinLimit(AfterReport(s, policy, r).log)
  {
    var log := AfterReport(s, policy, r).log;
    var n := |s.log|;
    assert log[..n] == s.log && log[..n + 1] == log;
    forall k | 0 <= k < |log| ensures RecentLog(log[..k + 1], log[k].time) <= log[k].policy.Maximum() <= 6 {
      if k < n { assert log[..k + 1] == s.log[..k + 1]; }
    }
  }

  lemma RestartSpaced(s: State, policy: Policy, r: Report, clock: real)
    requires Remembers(s, clock) && Spaced(s.log) && clock <= r.check <= r.now && Restarts(s, policy, r)
    ensures Spaced(AfterReport(s, policy, r).log)
  {
    hide Recent, RecentLog, Logged;
  }

  lemma {:induction false} ReportsKeepInv(s: State, policy: Policy, reports: seq<Report>, start: real)
    requires Inv(s, start) && ReportsInOrder(start, reports)
    ensures Inv(AfterReports(s, policy, reports), EndOfReports(start, reports)) && start <= EndOfReports(start, reports)
  {
    if reports != [] {
      var n := |reports| - 1;
      ReportsKeepInv(s, policy, reports[..n], start);
      var before, clock := AfterReports(s, policy, reports[..n]), EndOfReports(start, reports[..n]);
      hide Recent, Logged, WithinLimit, Spaced;
      if Restarts(before, policy, reports[n]) {
        RestartSpaced(before, policy, reports[n], clock);
        RestartRemembers(before, policy, reports[n], clock);
        RecentIsBounded(before.history, reports[n].now);
        RestartWithinLimit(before, policy, reports[n]);
      }
    }
  }

  // ---- cycles whose state is lost ----------------------------------------------------

  /** Restarts recorded in the state are in the past. */
  ghost predicate InPast(s: State, clock: real) { forall service :: service in s.last ==> s.last[service] <= clock }

  /** A restart among the reports is later than what the state knew of its service. */
  predicate LaterThan(last: map<string, real>, r: Restart) { r.service in last ==> r.time > last[r.service] }

  lemma {:induction false} ReportsExtend(s: State, policy: Policy, reports: seq<Report>, start: real)
    requires InPast(s, start) && ReportsInOrder(start, reports)
    ensures var after := AfterReports(s, policy, reports);
      && InPast(after, EndOfReports(start, reports)) && start <= EndOfReports(start, reports)
      && |s.log| <= |after.log| && after.log[..|s.log|] == s.log
      && (forall service :: service in s.last ==> service in after.last && s.last[service] <= after.last[service])
      && (forall i :: |s.log| <= i < |after.log| ==> LaterThan(s.last, after.log[i]))
  {
    if reports != [] {
      var n := |reports| - 1;
      var before, r := AfterReports(s, policy, reports[..n]), reports[n];
      ReportsExtend(s, policy, reports[..n], start);
      if Restarts(before, policy, r) {
        var after := AfterReport(before, policy, r);
        assert after.log[..|s.log|] == before.log[..|s.log|];
        assert LaterThan(s.last, after.log[|before.log|]);
      }
    }
  }

  /** A cycle does its work on what was remembered, and its filter loses nothing of that. */
  lemma HealedKeepsInv(s: State, c: Cycle, clock: real)
    requires Inv(s, clock) && InPast(s, clock) && CycleInOrder(clock, c)
    ensures var healed, end := Healed(s, c.policy, c.filter, c.reports), EndOfReports(c.filtered, c.reports);
      && Inv(healed, end) && InPast(healed, end) && clock <= end
      && |s.log| <= |healed.log| && healed.log[..|s.log|] == s.log
      && (forall i :: |s.log| <= i < |healed.log| ==> LaterThan(s.last, healed.log[i]))
      && (healed.log == s.log ==> Inv(s, end))
  {
    var filtered := s.(history := Kept(s.history, c.filter));
    forall x | x >= c.filtered ensures RecentLog(filtered.log, x) == Recent(filtered.history, x) {
      KeptIsRecent(s.history, c.filter, x);
    }
    hide Logged, Recent, RecentLog, Kept, WithinLimit, Spaced;
    ReportsKeepInv(filtered, c.policy, c.reports, c.filtered);
    ReportsExtend(filtered, c.policy, c.reports, c.filtered);
    ReportsOnlyMoveClock(c.filtered, c.reports);
  }

  lemma {:induction false} ReportsOnlyMoveClock(start: real, reports: seq<Report>)
    requires ReportsInOrder(start, reports)
    ensures start <= EndOfReports(start, reports)
  {
    if reports != [] { ReportsOnlyMoveClock(start, reports[..|reports| - 1]); }
  }

  /** Nothing a later cycle needs is lost: the state is merged, or there was no restart. */
  predicate LosesNothing(s: State, c: Cycle) { c.merged || Healed(s, c.policy, c.filter, c.reports).log == s.log }

  /** The stored state still knows of every restart exactly when the cycle loses nothing. */
  lemma CycleIsRememberedExactly(s: State, c: Cycle, clock: real)
    requires Inv(s, clock) && InPast(s, clock) && CycleInOrder(clock, c)
    ensures Remembers(AfterCycle(s, c), EndOfReports(c.filtered, c.reports)) <==> LosesNothing(s, c)
    ensures InPast(AfterCycle(s, c), EndOfReports(c.filtered, c.reports))
    ensures LosesNothing(s, c) ==> Inv(AfterCycle(s, c), EndOfReports(c.filtered, c.reports))
  {
    HealedKeepsInv(s, c, clock);
    var healed, after := Healed(s, c.policy, c.filter, c.reports), AfterCycle(s, c);
    hide Healed, WithinLimit, Spaced, Recent, RecentLog;
    if !LosesNothing(s, c) {
      assert healed.log[..|s.log|] == s.log;
      var i := |s.log|;
      assert LaterThan(s.last, healed.log[i]);
      assert !(after.log[i].service in after.last && after.log[i].time <= after.last[after.log[i].service]);
    }
  }

  ghost predicate NothingLost(cycles: seq<Cycle>) {
    cycles == [] ||
    (NothingLost(cycles[..|cycles| - 1]) &&
     LosesNothing(Run(cycles[..|cycles| - 1]), cycles[|cycles| - 1]))
  }

  lemma {:induction false} RunKeepsInv(cycles: seq<Cycle>)
    requires RunInOrder(cycles) && NothingLost(cycles)
    ensures Inv(Run(cycles), EndOfRun(cycles)) && InPast(Run(cycles), EndOfRun(cycles))
  {
    if cycles != [] {
      var n := |cycles| - 1;
      RunKeepsInv(cycles[..n]);
      CycleIsRememberedExactly(Run(cycles[..n]), cycles[n], EndOfRun(cycles[..n]));
    }
  }

  // ---- the bounds --------------------------------------------------------------------

  predicate MaximaWithin(log: seq<Restart>, bound: nat) {
    forall k :: 0 <= k < |log| ==> log[k].policy.Maximum() <= bound
  }

  lemma {:induction false} WindowWithinBound(log: seq<Restart>, t: real, bound: nat)
    requires WithinLimit(log) && MaximaWithin(log, bound)
    ensures InWindow(log, t) <= bound
  {
    if log != [] {
      var n := |log| - 1;
      forall k | 0 <= k < n ensures RecentLog(log[..n][..k + 1], log[k].time) <= log[k].policy.Maximum() <= 6 {
        assert log[..n][..k + 1] == log[..k + 1];
      }
      WindowWithinBound(log[..n], t, bound);
      if t <= log[n].time < t + HOUR {
        assert log[..n + 1] == log;
        WindowIsRecent(log, t, log[n].time);
      }
    }
  }

  /** Any hour-long window holds at most the configured number of restarts, never more than 6. */
  lemma RestartsPerWindow(cycles: seq<Cycle>, t: real, bound: nat)
    requires RunInOrder(cycles) && NothingLost(cycles)
    requires bound >= 1
    requires bound >= 6 || forall i :: 0 <= i < |cycles| ==> cycles[i].policy.maxRestartsPerHour <= bound
    ensures InWindow(Run(cycles).log, t) <= bound
  {
    RunKeepsInv(cycles);
    LogMaxima(cycles, bound);
    WindowWithinBound(Run(cycles).log, t, bound);
  }

  lemma {:induction false} ReportMaxima(s: State, policy: Policy, reports: seq<Report>, bound: nat)
    requires policy.Maximum() <= bound && MaximaWithin(s.log, bound)
    ensures MaximaWithin(AfterReports(s, policy, reports).log, bound)
  {
    if reports != [] { ReportMaxima(s, policy, reports[..|reports| - 1], bound); }
  }

  lemma {:induction false} LogMaxima(cycles: seq<Cycle>, bound: nat)
    requires bound >= 6 || forall i :: 0 <= i < |cycles| ==> cycles[i].policy.Maximum() <= bound
    ensures MaximaWithin(Run(cycles).log, bound)
  {
    if cycles != [] {
      var n := |cycles| - 1;
      LogMaxima(cycles[..n], bound);
      var s, c := Run(cycles[..n]), cycles[n];
      ReportMaxima(s.(history := Kept(s.history, c.filter)), c.policy, c.reports, bound);
    }
  }

  /** Two restarts of one service are at least the cooldown, and at least a minute, apart. */
  lemma RestartsAreSpaced(cycles: seq<Cycle>, i: nat, j: nat)
    requires RunInOrder(cycles) && NothingLost(cycles)
    requires i < j < |Run(cycles).log| && Run(cycles).log[i].service == Run(cycles).log[j].service
    ensures var gap := Run(cycles).log[j].time - Run(cycles).log[i].time;
      gap >= 60.0 && gap >= Run(cycles).log[j].policy.cooldownSeconds as real
  {
    RunKeepsInv(cycles);
  }

  // ---- due services are restarted ------------------------------------------------------

  /** The state in which a cycle gets to its k-th report. */
  function Reached(s: State, c: Cycle, k: nat): State
    requires k <= |c.reports|
  {
    AfterReports(s.(history := Kept(s.history, c.filter)), c.policy, c.reports[..k])
  }

  lemma {:induction false} KeptIsYoung(history: seq<real>, filter: nat -> real, clock: real)
    requires forall i :: clock <= filter(i)
    ensures |Kept(history, filter)| <= Recent(history, clock)
  {
    if history != [] { KeptIsYoung(history[..|history| - 1], filter, clock); }
  }

  /** Within a cycle the history grows with the log. */
  lemma {:induction false} HistoryGrowsAlike(s: State, policy: Policy, reports: seq<Report>, start: real, clock: real)
    requires clock <= start && ReportsInOrder(start, reports)
    ensures var after := AfterReports(s, policy, reports);
      |after.history| - |s.history| == RecentLog(after.log, clock) - RecentLog(s.log, clock)
  {
    if reports != [] {
      var n := |reports| - 1;
      var before := AfterReports(s, policy, reports[..n]);
      HistoryGrowsAlike(s, policy, reports[..n], start, clock);
      ReportsOnlyMoveClock(start, reports[..n]);
      if Restarts(before, policy, reports[n]) {
        var after := AfterReport(before, policy, reports[n]);
        assert after.log[..|before.log|] == before.log;
      }
    }
  }

  lemma {:induction false} ReportsKeepLogged(s: State, policy: Policy, reports: seq<Report>)
    requires LastIsLogged(s)
    ensures LastIsLogged(AfterReports(s, policy, reports))
  {
    if reports != [] {
      var n := |reports| - 1;
      ReportsKeepLogged(s, policy, reports[..n]);
      RestartIsLogged(AfterReports(s, policy, reports[..n]), policy, reports[n]);
    }
  }

  /** When a report finds its service due. */
  lemma DueRestarts(s: State, policy: Policy, r: Report)
    requires LastIsLogged(s) && r.eligible && r.ok
    requires r.check >= 60.0 && r.check >= policy.cooldownSeconds as real
    requires forall i :: 0 <= i < |s.log| && s.log[i].service == r.service ==>
      r.check - s.log[i].time >= 60.0 && r.check - s.log[i].time >= policy.cooldownSeconds as real
    requires |s.history| == 0 || (|s.history| < policy.maxRestartsPerHour && |s.history| < 6)
    ensures AfterReport(s, policy, r).log == s.log + [Restart(r.service, r.now, policy)]
  {
    if r.service in s.last { assert Logged(s.log, r.service, s.last[r.service]); }
  }

  lemma ReachedNext(s: State, c: Cycle, k: nat)
    requires k < |c.reports|
    ensures Reached(s, c, k + 1) == AfterReport(Reached(s, c, k), c.policy, c.reports[k])
  {
    assert c.reports[..k + 1][..k] == c.reports[..k];
  }

  /** The history counts no restart from before the hour that ended when the cycle began. */
  lemma ReachedKnows(cycles: seq<Cycle>, c: Cycle, k: nat)
    requires RunInOrder(cycles) && NothingLost(cycles) && CycleInOrder(EndOfRun(cycles), c) && k <= |c.reports|
    ensures var s := Reached(Run(cycles), c, k);
      LastIsLogged(s) && |s.history| <= RecentLog(s.log, EndOfRun(cycles))
  {
    var s, clock := Run(cycles), EndOfRun(cycles);
    RunKeepsInv(cycles);
    var filtered := s.(history := Kept(s.history, c.filter));
    KeptIsYoung(s.history, c.filter, clock);
    InOrderPrefix(c.filtered, c.reports, k);
    HistoryGrowsAlike(filtered, c.policy, c.reports[..k], c.filtered, clock);
    ReportsKeepLogged(filtered, c.policy, c.reports[..k]);
    hide Logged, Recent, RecentLog, Kept, AfterReports, WithinLimit, Spaced, Run, RunInOrder, NothingLost;
  }

  /** A service that is down and may be restarted is restarted: if Auto-Heal is enabled, the service's last restart is
      the cooldown and a minute ago, and fewer restarts than the limit were made in the hour before the cycle and in
      it. */
  lemma DueIsRestarted(cycles: seq<Cycle>, c: Cycle, k: nat)
    requires RunInOrder(cycles) && NothingLost(cycles) && CycleInOrder(EndOfRun(cycles), c)
    requires c.policy.enabled && k < |c.reports| && c.reports[k].eligible && c.reports[k].ok
    requires var r, log := c.reports[k], Reached(Run(cycles), c, k).log;
      && r.check >= 60.0 && r.check >= c.policy.cooldownSeconds as real
      && (forall i :: 0 <= i < |log| && log[i].service == r.service ==>
           r.check - log[i].time >= 60.0 && r.check - log[i].time >= c.policy.cooldownSeconds as real)
      && var recent := RecentLog(log, EndOfRun(cycles));
         recent == 0 || (recent < c.policy.maxRestartsPerHour && recent < 6)
    ensures Reached(Run(cycles), c, k + 1).log ==
      Reached(Run(cycles), c, k).log + [Restart(c.reports[k].service, c.reports[k].now, c.policy)]
  {
    ReachedKnows(cycles, c, k);
    ReachedNext(Run(cycles), c, k);
    hide *;
    DueRestarts(Reached(Run(cycles), c, k), c.policy, c.reports[k]);
  }

  /** Nothing else is: no restart without a report that is down and may be restarted, and a command that succeeded. */
  lemma OthersAreLeft(s: State, c: Cycle, k: nat)
    requires k < |c.reports| && !(c.policy.enabled && c.reports[k].eligible && c.reports[k].ok)
    ensures Healed(s, c.policy, c.filter, c.reports[..k + 1]).log == Healed(s, c.policy, c.filter, c.reports[..k]).log
  {
    assert c.reports[..k + 1][..k] == c.reports[..k];
  }

  lemma {:induction false} InOrderPrefix(start: real, reports: seq<Report>, k: nat)
    requires ReportsInOrder(start, reports) && k <= |reports|
    ensures ReportsInOrder(start, reports[..k])
  {
    if k < |reports| {
      InOrderPrefix(start, reports[..|reports| - 1], k);
      assert reports[..|reports| - 1][..k] == reports[..k];
    } else {
      assert reports[..k] == reports;
    }
  }

  /** The log of a cycle is that of its last report, and a disabled one restarts nothing. */
  lemma CycleLog(s: State, c: Cycle)
    ensures AfterCycle(s, c).log == if c.policy.enabled then Reached(s, c, |c.reports|).log else s.log
  {
    assert c.reports[..|c.reports|] == c.reports;
  }

  function RaisingCycle(service: string, t: real): Cycle {
    Cycle(Policy(true, 60, 1), _ => t, t, [Report(service, true, t, true, t)], false)
  }

  /** A cycle that raises after Auto-Heal ran loses its restarts: the next one restarts the service again at once. */
  lemma UnmergedCycleIsForgotten(service: string, t: real)
    requires t >= 60.0
    ensures var cycles := [RaisingCycle(service, t), RaisingCycle(service, t)];
      RunInOrder(cycles) && InWindow(Run(cycles).log, t) == 2 > cycles[0].policy.Maximum()
  {
    var heal, r := RaisingCycle(service, t), Report(service, true, t, true, t);
    var entry := Restart(service, t, Policy(true, 60, 1));
    assert [r][..0] == [] && [heal][..0] == [] && [heal, heal][..1] == [heal];
    assert heal.reports == [r];
    assert ReportsInOrder(t, []) && ReportsInOrder(t, heal.reports) && EndOfReports(t, heal.reports) == t;
    assert CycleInOrder(0.0, heal) && CycleInOrder(t, heal);
    assert RunInOrder([]) && EndOfRun([heal]) == t && RunInOrder([heal]);
    var none: seq<Restart> := [];
    assert AfterReports(State([], map[], none), heal.policy, heal.reports).log == [entry];
    assert Run([heal]) == State([], map[], [entry]);
    assert AfterReports(State([], map[], [entry]), heal.policy, heal.reports).log == [entry] + [entry];
    assert Run([heal, heal]).log == [entry, entry];
    assert [entry, entry][..1] == [entry] && [entry][..0] == none;
    assert InWindow(none, t) == 0;
    assert InWindow([entry], t) == 1;
  }

  /** The stored part of the agent's state. */
  class Healer {
    var history: seq<real>
    var last: map<string, real>
    ghost var log: seq<Restart>

    ghost function View(): State
      reads this
    {
      State(history, last, log)
    }

    constructor ()
      ensures View() == State([], map[], [])
    {
      history, last, log := [], map[], [];
    }

    /** maybe_autoheal: the history is filtered first, then each report is looked at. */
    method MaybeAutoheal(policy: Policy, filter: nat -> real, reports: seq<Report>)
      modifies this
      ensures View() == Healed(old(View()), policy, filter, reports)
    {
      if !policy.enabled { return; }
      var kept: seq<real> := [];
      for i := 0 to |history|
        invariant View() == old(View()) && kept == Kept(history[..i], filter)
      {
        assert history[..i + 1][..i] == history[..i];
        if filter(i) - history[i] < HOUR { kept := kept + [history[i]]; }
      }
      assert history[..|history|] == history;
      ghost var start := State(kept, last, log);
      for i := 0 to |reports|
        invariant State(kept, last, log) == AfterReports(start, policy, reports[..i]) && history == old(history)
      {
        assert reports[..i + 1][..i] == reports[..i];
        var r := reports[i];
        var previous := if r.service in last then last[r.service] else 0.0;
        if r.eligible && r.check - previous >= policy.Cooldown() && |kept| < policy.Maximum() && r.ok {
          last := last[r.service := r.now];
          kept := kept + [r.now];
          log := log + [Restart(r.service, r.now, policy)];
        }
      }
      assert reports[..|reports|] == reports;
      history := kept;
    }
  }
}
