/** The Agent's tunnel discovery: one cache shared by the collection, its flag and jobs in other threads.

    A call of discover_tunnels_snapshot is one step. */
module Discovery {
  import opened Common

  datatype Item = Item(name: string, service: string, managed: bool)

  /** What a scan makes of a candidate unit: a tunnel of ours, not ours, or a unit that systemd cannot show and no file
      identifies. */
  datatype Sight = Described(name: string, managed: bool) | Foreign | Hidden

  /** A unit on the host, and where it shows: among the loaded units, among the unit files, in a tunnel directory that
      could be read. */
  datatype Candidate = Candidate(service: string, sight: Sight, loaded: bool, filed: bool, stored: bool)

  /** A scan as the host answers it: the clock at its start, whether each of the two listing commands succeeded, whether
      a tunnel directory exists, whether reading one failed, the units of the host in order, and whether the connections
      could be read. */
  datatype Scan = Scan(now: real, unitsListed: bool, filesListed: bool, rooted: bool, rootError: bool,
                       units: seq<Candidate>, connected: bool)

  datatype Call = Call(scan: Scan, force: bool)

  /** `source` is history: the scan that found the items. */
  datatype Cache = Cache(time: real, items: seq<Item>, complete: bool, source: Option<Scan>)

  datatype Snapshot = Snapshot(items: seq<Item>, complete: bool, source: Option<Scan>)

  const MAXIMUM := 256

  /** Something that the scan could read shows the unit. */
  predicate Shows(scan: Scan, c: Candidate) {
    (scan.unitsListed && c.loaded) || (scan.filesListed && c.filed) || c.stored
  }

  /** The candidates among the first units of the host. */
  function Shown(scan: Scan, units: seq<Candidate>): (r: seq<Candidate>)
    ensures |r| <= |units|
  {
    if units == [] then []
    else
      var rest, last := Shown(scan, units[..|units| - 1]), units[|units| - 1];
      if Shows(scan, last) then rest + [last] else rest
  }

  function Candidates(scan: Scan): seq<Candidate> { Shown(scan, scan.units) }

  function Examined(scan: Scan): seq<Candidate> {
    if |Candidates(scan)| <= MAXIMUM then Candidates(scan) else Candidates(scan)[..MAXIMUM]
  }

  /** One of the listings is enough. */
  predicate Reached(scan: Scan) { !scan.rootError && (scan.unitsListed || scan.filesListed || scan.rooted) }

  predicate AnyHidden(candidates: seq<Candidate>) {
    exists k :: 0 <= k < |candidates| && candidates[k].sight.Hidden?
  }

  /** Whether a scan that is carried through counts as complete. */
  predicate Completes(scan: Scan) { Reached(scan) && scan.connected && !AnyHidden(Examined(scan)) }

  function KnownAs(items: seq<Item>, service: string): (r: Option<Item>)
    ensures r.Some? ==> r.value in items && r.value.service == service
    ensures r.None? ==> forall item :: item in items ==> item.service != service
  {
    if items == [] then None
    else if items[|items| - 1].service == service then Some(items[|items| - 1])
    else KnownAs(items[..|items| - 1], service)
  }

  function ItemOf(c: Candidate): Item
    requires c.sight.Described?
  {
    Item(c.sight.name, c.service, c.sight.managed)
  }

  /** The entry a candidate contributes: a unit that cannot be shown keeps its previous one. */
  function Entry(c: Candidate, previous: seq<Item>): Option<Item> {
    match c.sight
    case Described(_, _) => Some(ItemOf(c))
    case Foreign => None
    case Hidden => KnownAs(previous, c.service)
  }

  function Found(candidates: seq<Candidate>, previous: seq<Item>): seq<Item> {
    if candidates == [] then []
    else
      var rest, e := Found(candidates[..|candidates| - 1], previous), Entry(candidates[|candidates| - 1], previous);
      if e.Some? then rest + [e.value] else rest
  }

  /** A result less than a minute old is used again, unless the call forces a scan. */
  predicate Reuses(cache: Cache, call: Call) { !call.force && call.scan.now - cache.time < 60.0 }

  /** The scan fails without candidates and there is something to repeat; the services of cached items are not empty. */
  predicate GivesUp(cache: Cache, call: Call) {
    !Reuses(cache, call) && Candidates(call.scan) == [] && !Reached(call.scan) && cache.items != []
  }

  predicate Replaces(cache: Cache, call: Call) { !Reuses(cache, call) && !GivesUp(cache, call) }

  /** discover_tunnels_snapshot: the cache afterwards and what is returned. */
  function Look(cache: Cache, call: Call): (Cache, Snapshot) {
    if Reuses(cache, call) then (cache, Snapshot(cache.items, cache.complete, cache.source))
    else if GivesUp(cache, call) then (cache, Snapshot(cache.items, false, cache.source))
    else
      var items, complete := Found(Examined(call.scan), cache.items), Completes(call.scan);
      (Cache(call.scan.now, items, complete, Some(call.scan)), Snapshot(items, complete, Some(call.scan)))
  }

  function Calls(cache: Cache, calls: seq<Call>): Cache {
    if calls == [] then cache else Look(Calls(cache, calls[..|calls| - 1]), calls[|calls| - 1]).0
  }

  // ---- what a complete result lists --------------------------------------------------

  predicate Saw(candidates: seq<Candidate>, item: Item) {
    exists k :: 0 <= k < |candidates| && candidates[k].sight.Described?
      && ItemOf(candidates[k]) == item
  }

  /** A candidate that could not be shown, and the entry it had before. */
  predicate Remembered(candidates: seq<Candidate>, previous: seq<Item>, item: Item) {
    exists k :: 0 <= k < |candidates| && candidates[k].sight.Hidden?
      && KnownAs(previous, candidates[k].service) == Some(item)
  }

  /** The result lists what was seen, and what is remembered of the rest. */
  lemma {:induction false} FoundExactly(candidates: seq<Candidate>, previous: seq<Item>, item: Item)
    ensures item in Found(candidates, previous) <==> Saw(candidates, item) || Remembered(candidates, previous, item)
  {
    if candidates != [] {
      var n := |candidates| - 1;
      var rest := candidates[..n];
      assert forall k :: 0 <= k < n ==> rest[k] == candidates[k];
      FoundExactly(rest, previous, item);
      assert Saw(candidates, item) || Remembered(candidates, previous, item) <==>
        Saw(rest, item) || Remembered(rest, previous, item) || Entry(candidates[n], previous) == Some(item);
    }
  }

  lemma FoundIsSeen(candidates: seq<Candidate>, previous: seq<Item>, item: Item)
    requires !AnyHidden(candidates)
    ensures item in Found(candidates, previous) <==> Saw(candidates, item)
  {
    FoundExactly(candidates, previous, item);
  }

  /** A complete cache lists exactly the tunnels that a complete scan, at the time on the cache, saw. */
  ghost predicate Sound(cache: Cache) {
    cache.complete ==>
      && cache.source.Some? && cache.source.value.now == cache.time && Completes(cache.source.value)
      && forall item :: item in cache.items <==> Saw(Examined(cache.source.value), item)
  }

  lemma LookKeepsSound(cache: Cache, call: Call)
    requires Sound(cache)
    ensures Sound(Look(cache, call).0)
  {
    if Replaces(cache, call) && Completes(call.scan) {
      forall item ensures item in Found(Examined(call.scan), cache.items) <==> Saw(Examined(call.scan), item) {
        FoundIsSeen(Examined(call.scan), cache.items, item);
      }
    }
  }

  lemma {:induction false} CallsKeepSound(cache: Cache, calls: seq<Call>)
    requires Sound(cache)
    ensures Sound(Calls(cache, calls))
  {
    if calls != [] {
      CallsKeepSound(cache, calls[..|calls| - 1]);
      LookKeepsSound(Calls(cache, calls[..|calls| - 1]), calls[|calls| - 1]);
    }
  }

  /** A snapshot returned as complete was found less than a minute before the call and lists what that scan saw. */
  lemma CompleteSnapshotIsRecent(cache: Cache, call: Call)
    requires Sound(cache)
    ensures var s := Look(cache, call).1;
      s.complete ==>
        && s.source.Some? && call.scan.now - s.source.value.now < 60.0 && Completes(s.source.value)
        && forall item :: item in s.items <==> Saw(Examined(s.source.value), item)
  {
    LookKeepsSound(cache, call);
  }

  /** Where a unit stands among the candidates. */
  lemma {:induction false} ShownAt(scan: Scan, units: seq<Candidate>, k: nat)
    requires k < |units| && Shows(scan, units[k])
    ensures var at := |Shown(scan, units[..k])|;
      at < |Shown(scan, units)| && Shown(scan, units)[at] == units[k]
  {
    var n := |units| - 1;
    if k < n {
      ShownAt(scan, units[..n], k);
      assert units[..n][..k] == units[..k];
    }
  }

  lemma {:induction false} ShownIsUnit(scan: Scan, units: seq<Candidate>, at: nat) returns (k: nat)
    requires at < |Shown(scan, units)|
    ensures k < |units| && Shown(scan, units)[at] == units[k] && Shows(scan, units[k])
    ensures at == |Shown(scan, units[..k])|
  {
    var n := |units| - 1;
    if at < |Shown(scan, units[..n])| {
      k := ShownIsUnit(scan, units[..n], at);
      assert units[..n][..k] == units[..k];
    } else {
      k := n;
    }
  }

  predicate ServicesDistinct(units: seq<Candidate>) {
    forall i, j :: 0 <= i < j < |units| ==> units[i].service != units[j].service
  }

  /** A unit is looked at: a listing that succeeded or a directory shows it, and fewer than 256 candidates precede
      it. */
  predicate LookedAt(scan: Scan, k: nat)
    requires k < |scan.units|
  {
    Shows(scan, scan.units[k]) && |Shown(scan, scan.units[..k])| < MAXIMUM
  }

  lemma LookedAtIsExamined(scan: Scan, k: nat)
    requires k < |scan.units| && ServicesDistinct(scan.units) && scan.units[k].sight.Described?
    ensures Saw(Examined(scan), ItemOf(scan.units[k])) <==> LookedAt(scan, k)
  {
    var u, examined := scan.units[k], Examined(scan);
    if LookedAt(scan, k) {
      ShownAt(scan, scan.units, k);
      assert examined[|Shown(scan, scan.units[..k])|] == u;
    }
    if Saw(examined, ItemOf(u)) {
      var at :| 0 <= at < |examined| && examined[at].sight.Described? && ItemOf(examined[at]) == ItemOf(u);
      var l := ShownIsUnit(scan, scan.units, at);
      assert l == k;
    }
  }

  /** A complete scan lists every tunnel of the host that it could describe exactly when it looks at each of them. */
  lemma WholeInventoryExactly(scan: Scan, previous: seq<Item>)
    requires Completes(scan) && ServicesDistinct(scan.units)
    ensures (forall item :: Saw(scan.units, item) ==> item in Found(Examined(scan), previous)) <==>
      (forall k :: 0 <= k < |scan.units| && scan.units[k].sight.Described? ==> LookedAt(scan, k))
  {
    var first := Examined(scan);
    forall item ensures item in Found(first, previous) <==> Saw(first, item) { FoundIsSeen(first, previous, item); }
    forall k | 0 <= k < |scan.units| && scan.units[k].sight.Described?
      ensures Saw(first, ItemOf(scan.units[k])) <==> LookedAt(scan, k)
      ensures Saw(scan.units, ItemOf(scan.units[k])) {
      LookedAtIsExamined(scan, k);
    }
  }

  /** On a host with at most 256 tunnels one that can be described is listed if a listing that succeeded or a directory
      shows it, and only then. */
  lemma TunnelIsListedExactly(scan: Scan, k: nat, previous: seq<Item>)
    requires k < |scan.units| <= 256 && ServicesDistinct(scan.units) && scan.units[k].sight.Described?
    requires !AnyHidden(Examined(scan))
    ensures var c := scan.units[k];
      ItemOf(c) in Found(Examined(scan), previous) <==>
        (c.loaded && scan.unitsListed) || (c.filed && scan.filesListed) || c.stored
  {
    LookedAtIsExamined(scan, k);
    FoundIsSeen(Examined(scan), previous, ItemOf(scan.units[k]));
  }

  /** No unit is shown by what the scan could read. */
  predicate Blank(scan: Scan) {
    forall k :: 0 <= k < |scan.units| ==> var c := scan.units[k];
      !(c.loaded && scan.unitsListed) && !(c.filed && scan.filesListed) && !c.stored
  }

  /** A directory cannot be read, or neither listing succeeds and there is no directory. */
  predicate Broken(scan: Scan) { scan.rootError || (!scan.unitsListed && !scan.filesListed && !scan.rooted) }

  lemma {:induction false} NoneShown(scan: Scan, units: seq<Candidate>)
    ensures Shown(scan, units) == [] <==> forall k :: 0 <= k < |units| ==> !Shows(scan, units[k])
  {
    if units != [] {
      var n := |units| - 1;
      assert forall k :: 0 <= k < n ==> units[..n][k] == units[k];
      NoneShown(scan, units[..n]);
    }
  }

  /** The three ways a call ends. A cache less than a minute old is used unless a scan is forced. A broken scan without
      candidates repeats what is known, as incomplete. Any other scan replaces the cache, and is complete exactly if it
      was not broken, saw the connections and could show every unit it looked at. */
  lemma CallEndsExactly(cache: Cache, call: Call)
    ensures var (after, s) := Look(cache, call);
      if !call.force && call.scan.now < cache.time + 60.0 then
        after == cache && s == Snapshot(cache.items, cache.complete, cache.source)
      else if Blank(call.scan) && Broken(call.scan) && cache.items != [] then
        after == cache && s == Snapshot(cache.items, false, cache.source)
      else
        && after == Cache(call.scan.now, s.items, s.complete, Some(call.scan)) && s.source == Some(call.scan)
        && (s.complete <==> !Broken(call.scan) && call.scan.connected && !AnyHidden(Examined(call.scan)))
        && forall item :: item in s.items <==>
             Saw(Examined(call.scan), item) || Remembered(Examined(call.scan), cache.items, item)
  {
    NoneShown(call.scan, call.scan.units);
    forall item ensures item in Found(Examined(call.scan), cache.items) <==>
      Saw(Examined(call.scan), item) || Remembered(Examined(call.scan), cache.items, item) {
      FoundExactly(Examined(call.scan), cache.items, item);
    }
  }

  function Units(n: nat): string { seq(n, _ => 'u') }

  function Tunnel(n: nat): Candidate { Candidate(Units(n), Described(Units(n), true), true, true, true) }

  /** 257 tunnels, all of them described. */
  function Crowd(): Scan {
    Scan(1000.0, true, true, true, false, seq(257, i requires 0 <= i => Tunnel(i)), true)
  }

  lemma {:induction false} AllShown(scan: Scan, units: seq<Candidate>)
    requires forall k :: 0 <= k < |units| ==> Shows(scan, units[k])
    ensures Shown(scan, units) == units
  {
    if units != [] {
      AllShown(scan, units[..|units| - 1]);
      assert units == units[..|units| - 1] + [units[|units| - 1]];
    }
  }

  /** The last of 257 tunnels is missing from the result, which is complete. */
  lemma LastCandidateIsMissed()
    ensures var last := Item(Units(256), Units(256), true);
      && Completes(Crowd()) && Saw(Crowd().units, last)
      && last !in Look(Cache(0.0, [], false, None), Call(Crowd(), false)).1.items
  {
    AllShown(Crowd(), Crowd().units);
    var last, examined := Item(Units(256), Units(256), true), Examined(Crowd());
    assert |examined| == 256 && forall k :: 0 <= k < 256 ==> examined[k].service == Units(k) && |Units(k)| == k;
    assert Crowd().units[256].service == Units(256);
    FoundIsSeen(examined, [], last);
    assert !Saw(examined, last);
  }

  const LOADED_ONLY := Candidate("backhaul@edge.service", Described("edge", true), true, false, false)

  /** The same host twice: the unit is loaded, without a unit file or a tunnel directory of its own. */
  function Listing(now: real, unitsListed: bool): Scan {
    Scan(now, unitsListed, true, true, false, [LOADED_ONLY], true)
  }

  lemma OneUnitFound(scan: Scan, u: Candidate, previous: seq<Item>)
    requires scan.units == [u] && Shows(scan, u) && u.sight.Described?
    ensures Candidates(scan) == [u] && Examined(scan) == [u]
    ensures Found([u], previous) == [ItemOf(u)] && !AnyHidden([u])
  {
    assert [u][..0] == [];
    assert Shown(scan, []) == [] && Found([], previous) == [];
  }

  /** A listing that fails beside one that succeeds takes a known tunnel out of a result that is complete. */
  lemma FailedListingDropsTunnel()
    ensures var edge := Item("edge", "backhaul@edge.service", true);
      var (known, s) := Look(Cache(0.0, [], false, None), Call(Listing(1000.0, true), false));
      var next := Look(known, Call(Listing(1060.0, false), false)).1;
      s.items == [edge] && s.complete && next.items == [] && next.complete && Saw(next.source.value.units, edge)
  {
    var good, bad := Listing(1000.0, true), Listing(1060.0, false);
    assert [LOADED_ONLY][..0] == [];
    assert Candidates(bad) == [] && Found([], [ItemOf(LOADED_ONLY)]) == [];
    OneUnitFound(good, LOADED_ONLY, []);
    hide Shown, Found;
  }

  // ---- the flag read later -----------------------------------------------------------

  /** The completeness that the last of these calls to replace the cache left there. */
  function LastReplaced(cache: Cache, calls: seq<Call>): Option<bool> {
    if calls == [] then None
    else
      var rest, last := calls[..|calls| - 1], calls[|calls| - 1];
      if Replaces(Calls(cache, rest), last) then Some(Completes(last.scan)) else LastReplaced(cache, rest)
  }

  lemma {:induction false} FlagIsLastReplaced(cache: Cache, calls: seq<Call>)
    ensures Calls(cache, calls).complete ==
      if LastReplaced(cache, calls).Some? then LastReplaced(cache, calls).value else cache.complete
  {
    if calls != [] { FlagIsLastReplaced(cache, calls[..|calls| - 1]); }
  }

  /** The call repeats an old list, or carries an incomplete scan through. */
  predicate FallsShort(cache: Cache, call: Call) {
    if Reuses(cache, call) then !cache.complete else GivesUp(cache, call) || !Completes(call.scan)
  }

  /** The flag read after `between` says complete although the snapshot taken before it is not: the scan gave up on top
      of a complete cache, or another call replaced the cache in time. */
  predicate Misleading(cache: Cache, call: Call, between: seq<Call>) {
    var later := LastReplaced(Look(cache, call).0, between);
    if later.Some? then later.value && FallsShort(cache, call) else GivesUp(cache, call) && cache.complete
  }

  /** The snapshot is complete, and another call has replaced the cache by an incomplete result. */
  predicate Withheld(cache: Cache, call: Call, between: seq<Call>) {
    LastReplaced(Look(cache, call).0, between) == Some(false) && !FallsShort(cache, call)
  }

  /** The flag sent with a snapshot is that snapshot's own, except in these two cases, one for each direction. */
  lemma FlagAgreesExactly(cache: Cache, call: Call, between: seq<Call>)
    ensures var (after, s) := Look(cache, call);
      var flag := Calls(after, between).complete;
      && (flag && !s.complete <==> Misleading(cache, call, between))
      && (!flag && s.complete <==> Withheld(cache, call, between))
  {
    FlagIsLastReplaced(Look(cache, call).0, between);
  }

  /** The module's global cache. */
  class Discoverer {
    var cache: Cache

    constructor ()
      ensures cache == Cache(0.0, [], false, None)
    {
      cache := Cache(0.0, [], false, None);
    }

    /** discover_tunnels_snapshot */
    method DiscoverTunnels(call: Call) returns (s: Snapshot)
      modifies this
      ensures (cache, s) == Look(old(cache), call)
    {
      assert !AnyHidden([]);
      hide Shown, AnyHidden;
      var now := call.scan.now;
      if !call.force && now - cache.time < 60.0 {
        return Snapshot(cache.items, cache.complete, cache.source);
      }
      var previous := cache.items;
      var complete := true;
      if call.scan.rootError { complete := false; }
      if !call.scan.unitsListed && !call.scan.filesListed && !call.scan.rooted { complete := false; }
      if Candidates(call.scan) == [] && !complete && previous != [] {
        return Snapshot(previous, false, cache.source);
      }
      if !call.scan.connected { complete := false; }
      var candidates := Examined(call.scan);
      var discovered: seq<Item> := [];
      ghost var before := complete;
      for i := 0 to |candidates|
        invariant cache == old(cache) && discovered == Found(candidates[..i], previous)
        invariant complete == (before && !AnyHidden(candidates[..i]))
      {
        var c := candidates[i];
        assert candidates[..i + 1][..i] == candidates[..i];
        HiddenNext(candidates, i);
        if c.sight.Described? {
          discovered := discovered + [Item(c.sight.name, c.service, c.sight.managed)];
        } else if c.sight.Hidden? {
          complete := false;
          var cached := KnownAs(previous, c.service);
          if cached.Some? { discovered := discovered + [cached.value]; }
        }
      }
      assert candidates[..|candidates|] == candidates;
      cache := Cache(now, discovered, complete, Some(call.scan));
      return Snapshot(discovered, complete, Some(call.scan));
    }
  }

  lemma HiddenNext(candidates: seq<Candidate>, i: nat)
    requires i < |candidates|
    ensures AnyHidden(candidates[..i + 1]) <==> AnyHidden(candidates[..i]) || candidates[i].sight.Hidden?
  {
    var before, after := candidates[..i], candidates[..i + 1];
    assert after == before + [candidates[i]];
    if AnyHidden(before) {
      var k :| 0 <= k < |before| && before[k].sight.Hidden?;
      assert after[k].sight.Hidden?;
    }
    if candidates[i].sight.Hidden? { assert after[i].sight.Hidden?; }
  }
}
