/** Which heartbeats may delete rows: the Agent's telemetry status and the Hub's reading of it. */
module Inventory {
  import opened Common
  import opened Discovery
  import opened Heartbeat
  import opened RealmText

  // ---- the Hub -----------------------------------------------------------------------

  /** The completeness marker of a heartbeat, as sent. */
  datatype Marker = Missing | Flag(value: bool) | Word(text: string)

  function LowerChar(c: char): char { if 'A' <= c <= 'Z' then (c as int + 32) as char else c }

  function Lower(s: string): string { seq(|s|, i requires 0 <= i < |s| => LowerChar(s[i])) }

  /** Without surrounding space and in lower case, for ASCII text. */
  function Normal(s: string): string { Lower(Strip(s)) }

  predicate Complete(marker: Marker, status: string) {
    match marker
    case Missing => Normal(status) !in ["starting", "collecting", "stale"]
    case Flag(value) => value
    case Word(text) => Normal(text) in ["1", "true", "yes", "on"]
  }

  /** The second flag of agent_inventory_flags. */
  predicate IsFresh(marker: Marker, status: string) {
    Complete(marker, status) && Normal(status) in ["", "fresh"]
  }

  // ---- the Agent ---------------------------------------------------------------------

  /** One collection: the configured tunnels, its own scan, the discovery calls of other threads between that and the
      reading of the flag, and what the reports find. */
  datatype Gathering = Gathering(autoDiscovery: bool, configured: seq<Item>, scan: Scan, between: seq<Call>,
                                 statuses: seq<Status>)

  /** A collection's result, kept with the cache it began with. */
  datatype Payload = Payload(before: Cache, g: Gathering) {
    function Own(): Call { Call(g.scan, false) }

    function Taken(): Snapshot { Look(before, Own()).1 }

    /** monitored_tunnels */
    function Items(): seq<Item> {
      if g.autoDiscovery then g.configured + NotConfigured(Taken().items, g.configured) else g.configured
    }

    function Reports(): seq<Report> { ReportsOf(Items(), g.statuses) }

    /** The flag as it is sent. */
    predicate Complete() { g.autoDiscovery ==> Calls(Look(before, Own()).0, g.between).complete }

    /** The flag belies the snapshot behind the reports. */
    predicate Misleads() { g.autoDiscovery && Misleading(before, Own(), g.between) }

    function CacheAfter(): Cache { Calls(if g.autoDiscovery then Look(before, Own()).0 else before, g.between) }
  }

  predicate IsConfigured(item: Item, configured: seq<Item>) {
    exists k :: 0 <= k < |configured| && configured[k].name == item.name && configured[k].service == item.service
  }

  function NotConfigured(items: seq<Item>, configured: seq<Item>): (r: seq<Item>)
    ensures forall item :: item in r <==> item in items && !IsConfigured(item, configured)
  {
    if items == [] then []
    else
      var rest, last := NotConfigured(items[..|items| - 1], configured), items[|items| - 1];
      assert items == items[..|items| - 1] + [last];
      if IsConfigured(last, configured) then rest else rest + [last]
  }

  function ReportsOf(items: seq<Item>, statuses: seq<Status>): (r: seq<Report>)
    ensures |r| == |items|
  {
    seq(|items|, i requires 0 <= i < |items| =>
      Report(items[i].name, if i < |statuses| then statuses[i] else OtherStatus, items[i].managed))
  }

  /** The latest payload, none before the first collection; its time stamp in whole seconds, zero for none; when
      the last complete collection was merged, zero for never. */
  datatype Agent = Agent(payload: Option<Payload>, snapshotAt: int, telemetryAt: real)

  /** The Agent's process. `gathered` is a collection that has not been merged yet. */
  datatype Process = Process(cache: Cache, gathered: Option<Payload>, agent: Agent)

  /** A discovery call of a job, a collection, its merge into the loop's state. Heartbeats in between change nothing;
      a collection that raises is never merged. */
  datatype Event = OtherCall(call: Call) | Gather(g: Gathering) | Merge(now: real)

  predicate SentComplete(a: Agent) { a.payload.Some? && a.payload.value.Complete() }

  function Reported(a: Agent): seq<Report> { if a.payload.Some? then a.payload.value.Reports() else [] }

  function Merged(a: Agent, p: Payload, now: real): Agent {
    if p.Complete() then Agent(Some(p), now.Floor, now) else Agent(Some(p), 0, a.telemetryAt)
  }

  function AfterEvent(p: Process, e: Event): Process {
    match e
    case OtherCall(call) => p.(cache := Look(p.cache, call).0)
    case Gather(g) => p.(cache := Payload(p.cache, g).CacheAfter(), gathered := Some(Payload(p.cache, g)))
    case Merge(now) =>
      if p.gathered.Some? then p.(gathered := None, agent := Merged(p.agent, p.gathered.value, now)) else p
  }

  /** A process starts with an empty cache, and with the payload of an earlier one if a complete one was saved. */
  function Started(saved: Option<(Payload, real)>): Process {
    Process(Cache(0.0, [], false, None), None,
            if saved.Some? then Agent(Some(saved.value.0), saved.value.1.Floor, saved.value.1) else Agent(None, 0, 0.0))
  }

  ghost predicate Savable(saved: Option<(Payload, real)>) {
    saved.Some? ==> saved.value.0.Complete() && Sound(saved.value.0.before)
  }

  function Run(start: Process, events: seq<Event>): Process {
    if events == [] then start else AfterEvent(Run(start, events[..|events| - 1]), events[|events| - 1])
  }

  /** The time stamp of the latest payload, or else of the last complete collection. */
  function StampOf(a: Agent): real { if a.snapshotAt != 0 then a.snapshotAt as real else a.telemetryAt }

  function Age(a: Agent, now: real): (age: int)
    ensures age >= 0
  {
    if StampOf(a) == 0.0 || now < StampOf(a) then 0 else (now - StampOf(a)).Floor
  }

  function TelemetryStatus(a: Agent, now: real, collecting: bool): string {
    if SentComplete(a) && StampOf(a) != 0.0 && Age(a, now) <= 90 then "fresh"
    else if collecting then "collecting" else "stale"
  }

  predicate Trusted(a: Agent, now: real, collecting: bool) {
    IsFresh(Flag(SentComplete(a)), TelemetryStatus(a, now, collecting))
  }

  // ---- end to end --------------------------------------------------------------------

  lemma StatusWords()
    ensures Normal("fresh") == "fresh" && Normal("collecting") == "collecting" && Normal("stale") == "stale"
  {
    assert Strip("fresh") == "fresh" && Strip("collecting") == "collecting" && Strip("stale") == "stale";
  }

  /** The Hub treats an Agent's heartbeat as authoritative exactly when it is sent as complete, has a time stamp
      and is at most 90 whole seconds old. */
  lemma HubTrustsExactly(a: Agent, now: real, collecting: bool)
    ensures Trusted(a, now, collecting) <==> SentComplete(a) && StampOf(a) != 0.0 && Age(a, now) <= 90
    ensures !Trusted(a, now, collecting) ==>
      TelemetryStatus(a, now, collecting) == if collecting then "collecting" else "stale"
  {
    StatusWords();
  }

  /** The time is that of the last complete collection, cut to the second, and the ninety seconds are whole ones. */
  lemma TrustedUntil(saved: Option<(Payload, real)>, events: seq<Event>, now: real, collecting: bool)
    requires Savable(saved)
    ensures var a := Run(Started(saved), events).agent;
      a.telemetryAt >= 1.0 ==>
        (Trusted(a, now, collecting) <==> SentComplete(a) && now < a.telemetryAt.Floor as real + 91.0)
  {
    RunKeepsInv(saved, events);
    HubTrustsExactly(Run(Started(saved), events).agent, now, collecting);
  }

  /** What is reported: the configured tunnels, and each discovered one that is not among these by name and service. */
  lemma ReportsExactly(p: Payload, item: Item)
    ensures item in p.Items() <==>
      || item in p.g.configured
      || (p.g.autoDiscovery && item in p.Taken().items &&
          forall k :: 0 <= k < |p.g.configured| ==>
            p.g.configured[k].name != item.name || p.g.configured[k].service != item.service)
    ensures |p.Reports()| == |p.Items()| && forall i :: 0 <= i < |p.Items()| ==>
      && p.Reports()[i].name == p.Items()[i].name && p.Reports()[i].managed == p.Items()[i].managed
      && (i < |p.g.statuses| ==> p.Reports()[i].status == p.g.statuses[i])
  {
  }

  /** A collection that begins within a minute of another thread's scan reports what that found. */
  lemma CollectionUsesOtherCalls(p: Process, call: Call, g: Gathering)
    requires call.force && !(Blank(call.scan) && Broken(call.scan)) && g.autoDiscovery
    requires g.scan.now < call.scan.now + 60.0
    ensures var gathered := AfterEvent(AfterEvent(p, OtherCall(call)), Gather(g)).gathered;
      gathered.Some? && gathered.value.Taken().source == Some(call.scan)
  {
    CallEndsExactly(p.cache, call);
    CallEndsExactly(Look(p.cache, call).0, Call(g.scan, false));
    hide Look;
  }

  /** A collection is merged once: without another one in between a merge changes nothing more. */
  lemma MergedOnce(p: Process, now: real, later: real)
    ensures var merged := AfterEvent(p, Merge(now)); merged.gathered.None? && AfterEvent(merged, Merge(later)) == merged
  {
  }

  /** Markers as text. */
  lemma MarkerWords(status: string)
    ensures Complete(Word("1"), status) && Complete(Word(" True\n"), status)
    ensures Complete(Word("yes"), status) && Complete(Word("ON"), status)
  {
    assert Normal("1") == "1" by { PlainIsNormal("1"); }
    assert Normal("yes") == "yes" by { PlainIsNormal("yes"); }
    assert Normal(" True\n") == "true" && Normal("ON") == "on" by { SpacedWords(); }
    hide Normal;
  }

  lemma OffMarker(status: string)
    ensures !Complete(Word("off"), status)
  {
    assert Normal("off") == "off" by { PlainIsNormal("off"); }
    hide Normal;
  }

  /** Statuses of Agents without a marker. */
  lemma StatusesWithoutMarker()
    ensures !Complete(Missing, "starting") && !Complete(Missing, "collecting") && !Complete(Missing, " Stale ")
    ensures Complete(Missing, "unknown") && !IsFresh(Missing, "unknown")
  {
    PlainIsNormal("starting");
    PlainIsNormal("unknown");
    StatusWords();
    SpacedWords();
    hide Normal, IsSpace;
  }

  lemma SpacedWords()
    ensures Normal(" True\n") == "true" && Normal("ON") == "on" && Normal(" Stale ") == "stale"
  {
    StripDrops(" ", "True", "\n");
    StripDrops(" ", "Stale", " ");
    assert " " + "True" + "\n" == " True\n" && " " + "Stale" + " " == " Stale ";
    assert Strip("ON") == "ON";
    hide Strip;
    assert Lower("True") == "true" && Lower("Stale") == "stale" && Lower("ON") == "on";
  }

  lemma PlainIsNormal(w: string)
    requires w == [] || (!IsSpace(w[0]) && !IsSpace(w[|w| - 1]))
    requires forall k :: 0 <= k < |w| ==> !('A' <= w[k] <= 'Z')
    ensures Normal(w) == w
  {
    assert Lower(w) == w;
  }

  ghost predicate PayloadSound(p: Option<Payload>) { p.Some? ==> Sound(p.value.before) }

  /** What holds of the process at every point. */
  ghost predicate ProcessInv(p: Process) {
    && Sound(p.cache) && PayloadSound(p.gathered) && PayloadSound(p.agent.payload)
    && p.agent.snapshotAt == if SentComplete(p.agent) then p.agent.telemetryAt.Floor else 0
  }

  lemma {:induction false} RunKeepsInv(saved: Option<(Payload, real)>, events: seq<Event>)
    requires Savable(saved)
    ensures ProcessInv(Run(Started(saved), events))
  {
    if events != [] {
      var p, e := Run(Started(saved), events[..|events| - 1]), events[|events| - 1];
      RunKeepsInv(saved, events[..|events| - 1]);
      if e.OtherCall? {
        LookKeepsSound(p.cache, e.call);
      } else if e.Gather? {
        LookKeepsSound(p.cache, Call(e.g.scan, false));
        CallsKeepSound(if e.g.autoDiscovery then Look(p.cache, Call(e.g.scan, false)).0 else p.cache, e.g.between);
      }
    }
  }

  /** What the payload was gathered from is a complete result found less than a minute before the collection began. */
  ghost predicate Backed(p: Payload) {
    var s := p.Taken();
    && s.complete && s.source.Some? && p.g.scan.now - s.source.value.now < 60.0 && Completes(s.source.value)
    && forall item :: item in s.items <==> Saw(Examined(s.source.value), item)
  }

  /** Over every run: a payload sent as complete by an Agent that discovers its tunnels rests on a complete and recent
      result exactly when its flag does not mislead. */
  lemma TrustIsDeservedExactly(saved: Option<(Payload, real)>, events: seq<Event>)
    requires Savable(saved)
    ensures var a := Run(Started(saved), events).agent;
      SentComplete(a) && a.payload.value.g.autoDiscovery ==> (Backed(a.payload.value) <==> !a.payload.value.Misleads())
  {
    var a := Run(Started(saved), events).agent;
    RunKeepsInv(saved, events);
    if a.payload.Some? {
      var p := a.payload.value;
      FlagAgreesExactly(p.before, p.Own(), p.g.between);
      CompleteSnapshotIsRecent(p.before, p.Own());
    }
  }

  /** Over every run of the process: a heartbeat deletes rows only if it was sent as complete and merged less than 91
      seconds before, and then rests on a complete and recent discovery exactly when its flag does not mislead. The
      node's rows are then exactly the managed names of its reports. Any other heartbeat only adds or updates, and no
      other node's rows change. */
  lemma DeletionIsSafe(saved: Option<(Payload, real)>, events: seq<Event>, now: real, collecting: bool,
                       table: Table, node: nat)
    requires Savable(saved)
    ensures var a := Run(Started(saved), events).agent;
      var trusted := Trusted(a, now, collecting);
      var after := AfterBeat(table, node, Reported(a), trusted);
      && (trusted ==>
            && SentComplete(a) && now - a.telemetryAt < 91.0
            && (a.payload.value.g.autoDiscovery ==> (Backed(a.payload.value) <==> !a.payload.value.Misleads()))
            && forall name :: (node, name) in after <==> Heartbeat.Reported(Reported(a), name))
      && (!trusted ==> forall k :: k in table ==> k in after)
      && (forall k: Key :: k.0 != node ==> (k in after <==> k in table) && (k in table ==> after[k] == table[k]))
  {
    var a := Run(Started(saved), events).agent;
    RunKeepsInv(saved, events);
    HubTrustsExactly(a, now, collecting);
    TrustIsDeservedExactly(saved, events);
    InventoryAfterBeat(table, node, Reported(a), Trusted(a, now, collecting));
  }

  /** So the tunnels that a trusted heartbeat leaves, if its flag does not mislead, were discovered less than
      151 seconds before, plus the time from the beginning of the collection to its merge. */
  lemma DiscoveryAge(saved: Option<(Payload, real)>, events: seq<Event>, now: real, collecting: bool)
    requires Savable(saved)
    ensures var a := Run(Started(saved), events).agent;
      Trusted(a, now, collecting) && a.payload.value.g.autoDiscovery && !a.payload.value.Misleads() ==>
        var p := a.payload.value;
        p.Taken().source.Some? && now - p.Taken().source.value.now < 151.0 + (a.telemetryAt - p.g.scan.now)
  {
    var a := Run(Started(saved), events).agent;
    RunKeepsInv(saved, events);
    HubTrustsExactly(a, now, collecting);
    TrustIsDeservedExactly(saved, events);
  }

  // ---- a run on which the flag misleads ----------------------------------------------

  const TUNNEL := Item("old", "dark-realm@old.service", true)

  const OLD_UNIT := Candidate("dark-realm@old.service", Described("old", true), true, true, true)

  function GoodScan(): Scan {
    Scan(1000.0, true, true, true, false, [OLD_UNIT], true)
  }

  function FailedScan(now: real): Scan { Scan(now, false, false, false, false, [], false) }

  function PlainGathering(scan: Scan): Gathering { Gathering(true, [], scan, [], []) }

  /** A good collection, and `later` one whose scan fails. */
  function StaleRun(later: real): seq<Event> {
    [Gather(PlainGathering(GoodScan())), Merge(1000.0), Gather(PlainGathering(FailedScan(1000.0 + later))),
      Merge(1000.0 + later)]
  }

  function GoodCache(): Cache { Cache(1000.0, [TUNNEL], true, Some(GoodScan())) }

  lemma GoodLook()
    ensures Look(Started(None).cache, Call(GoodScan(), false)).0 == GoodCache()
  {
    OneUnitFound(GoodScan(), OLD_UNIT, []);
    hide Shown, Found;
  }

  lemma GoodGathering()
    ensures var p := AfterEvent(Started(None), Gather(PlainGathering(GoodScan())));
      p == Process(GoodCache(), Some(Payload(Started(None).cache, PlainGathering(GoodScan()))), Started(None).agent)
  {
    GoodLook();
    assert Calls(GoodCache(), []) == GoodCache();
    hide Look, Calls;
  }

  /** The scan gives up, and the flag stays that of the cache. */
  lemma FailedGathering(p: Process, later: real)
    requires later >= 60.0 && p.cache == GoodCache()
    ensures var after := AfterEvent(p, Gather(PlainGathering(FailedScan(1000.0 + later))));
      && after.gathered == Some(Payload(GoodCache(), PlainGathering(FailedScan(1000.0 + later))))
      && after.gathered.value.Complete() && after.agent == p.agent
  {
    assert Shown(FailedScan(1000.0 + later), []) == [];
    assert GivesUp(GoodCache(), Call(FailedScan(1000.0 + later), false));
    assert Calls(GoodCache(), []) == GoodCache();
  }

  lemma RunLeads(start: Process, events: seq<Event>, e: Event)
    ensures Run(start, events + [e]) == AfterEvent(Run(start, events), e)
  {
    assert (events + [e])[..|events|] == events;
  }

  lemma RunFour(start: Process, a: Event, b: Event, c: Event, d: Event)
    ensures Run(start, [a, b, c, d]) == AfterEvent(AfterEvent(AfterEvent(AfterEvent(start, a), b), c), d)
  {
    assert Run(start, []) == start;
    hide Run, AfterEvent;
    RunLeads(start, [], a);
    RunLeads(start, [a], b);
    RunLeads(start, [a, b], c);
    RunLeads(start, [a, b, c], d);
    assert [] + [a] == [a] && [a] + [b] == [a, b] && [a, b] + [c] == [a, b, c] && [a, b, c] + [d] == [a, b, c, d];
  }

  lemma StaleProcess(later: real)
    requires later >= 60.0
    ensures var p := Run(Started(None), StaleRun(later));
      && p.agent.payload == Some(Payload(GoodCache(), PlainGathering(FailedScan(1000.0 + later))))
      && p.agent.snapshotAt == (1000.0 + later).Floor && p.agent.telemetryAt == 1000.0 + later
  {
    var s, start := StaleRun(later), Started(None);
    RunFour(start, s[0], s[1], s[2], s[3]);
    hide Run, Look, Calls, PlainGathering, GoodScan, FailedScan, GoodCache;
    GoodGathering();
    FailedGathering(AfterEvent(AfterEvent(start, s[0]), s[1]), later);
  }

  function StaleAgent(later: real): Agent { Run(Started(None), StaleRun(later)).agent }

  lemma StalePayload(later: real)
    requires later >= 60.0
    ensures var a := StaleAgent(later);
      && a.payload.Some? && a.payload.value.Complete() && a.payload.value.Misleads()
      && a.payload.value.Taken().source == Some(GoodScan()) && a.payload.value.Items() == [TUNNEL]
      && a.snapshotAt == (1000.0 + later).Floor && a.telemetryAt == 1000.0 + later
  {
    StaleProcess(later);
    var p := StaleAgent(later).payload.value;
    assert GivesUp(p.before, p.Own());
    assert p.Taken().items == [TUNNEL];
    assert [TUNNEL][..0] == [];
    assert NotConfigured([TUNNEL], []) == [TUNNEL];
  }

  lemma StaleReports(later: real)
    requires later >= 60.0
    ensures forall name :: Heartbeat.Reported(Reported(StaleAgent(later)), name) <==> name == "old"
  {
    StalePayload(later);
    hide StaleAgent;
    var reports := Reported(StaleAgent(later));
    assert |reports| == 1 && reports[0].name == "old" && reports[0].managed;
    assert reports[0].Name() == "old";
  }

  function TwoRows(node: nat): Table { map[(node, "old") := Tunnel(0, 0), (node, "new") := Tunnel(0, 0)] }

  /** However long ago the last good scan was: the heartbeat after a failed one is trusted, and a tunnel deployed in
      between loses its row. */
  lemma StaleInventoryIsTrusted(later: real, node: nat)
    requires later >= 60.0
    ensures Trusted(StaleAgent(later), 1000.0 + later, false)
    ensures StaleAgent(later).payload.Some? && StaleAgent(later).payload.value.Taken().source == Some(GoodScan())
    ensures var after := AfterBeat(TwoRows(node), node, Reported(StaleAgent(later)), true);
      GoodScan().now == 1000.0 && (node, "old") in after && (node, "new") in TwoRows(node) && (node, "new") !in after
  {
    StalePayload(later);
    StaleReports(later);
    hide StaleAgent, TelemetryStatus, IsFresh;
    HubTrustsExactly(StaleAgent(later), 1000.0 + later, false);
    InventoryAfterBeat(TwoRows(node), node, Reported(StaleAgent(later)), true);
  }

  /** The truncation to whole seconds shows: a heartbeat nearly 91 seconds after the merge is still trusted. */
  lemma AlmostNinetyOneSeconds()
    ensures StaleAgent(60.0).telemetryAt == 1060.0 && Trusted(StaleAgent(60.0), 1150.9, false)
  {
    StalePayload(60.0);
    hide StaleAgent, TelemetryStatus, IsFresh;
    HubTrustsExactly(StaleAgent(60.0), 1150.9, false);
    assert (1060.0 as real).Floor == 1060;
    assert (90.9 as real).Floor == 90;
  }

  /** An Agent that sends neither the marker nor a status stays authoritative; one that sends only a status is trusted
      by that. */
  lemma LegacyHeartbeats(status: string)
    ensures IsFresh(Missing, []) && (IsFresh(Missing, status) <==> Normal(status) in ["", "fresh"])
  {
    assert Normal([]) == [];
  }
}
