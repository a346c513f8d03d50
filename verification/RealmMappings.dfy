/** Port mappings: the Hub canonicalises and prints them, the Agent parses them. */
module RealmMappings {
  import opened Common
  import opened RealmText

  datatype Mapping = Mapping(public: int, target: int, backbone: int)

  datatype Error = BackboneBase | NoMapping | TooMany | Syntax | PortRange | DuplicatePublic | DuplicateBackbone

  datatype Result<+T> = Ok(value: T) | Err(error: Error)

  const MAXIMUM := 256

  predicate InRange(port: int) { 1 <= port <= 65535 }

  predicate SeenPublic(list: seq<Mapping>, port: int) { exists i :: 0 <= i < |list| && list[i].public == port }

  predicate SeenBackbone(list: seq<Mapping>, port: int) { exists i :: 0 <= i < |list| && list[i].backbone == port }

  predicate PortsInRange(m: Mapping) { InRange(m.public) && InRange(m.target) && InRange(m.backbone) }

  /** A list both sides can use. */
  predicate Usable(list: seq<Mapping>) {
    && (forall i :: 0 <= i < |list| ==> PortsInRange(list[i]))
    && (forall i, j :: 0 <= i < j < |list| ==> list[i].public != list[j].public && list[i].backbone != list[j].backbone)
  }

  /** f"{public}>{target}@{backbone}" */
  function MappingText(m: Mapping): string {
    PrintInt(m.public) + ">" + PrintInt(m.target) + "@" + PrintInt(m.backbone)
  }

  function PrintAll(list: seq<Mapping>): (r: seq<string>)
    ensures |r| == |list|
  {
    seq(|list|, i requires 0 <= i < |list| => MappingText(list[i]))
  }

  // ---- collecting mappings -----------------------------------------------------------

  /** One mapping text as read: an error, or ports in range. */
  type Item = r: Result<Mapping> | r.Ok? ==> PortsInRange(r.value) witness Err(Syntax)

  lemma UsableExtends(list: seq<Mapping>, m: Mapping)
    ensures Usable(list + [m]) <==>
      Usable(list) && PortsInRange(m) && !SeenPublic(list, m.public) && !SeenBackbone(list, m.backbone)
  {
    var longer := list + [m];
    assert longer[|list|] == m && longer[..|list|] == list;
    assert forall i :: 0 <= i < |list| ==> longer[i] == list[i];
  }

  function Extended(list: seq<Mapping>, m: Item): (r: Result<seq<Mapping>>)
    requires Usable(list)
    ensures r.Ok? ==> m.Ok? && Usable(r.value) && r.value == list + [m.value]
  {
    if m.Err? then Err(m.error)
    else
      UsableExtends(list, m.value);
      if SeenPublic(list, m.value.public) then Err(DuplicatePublic)
      else if SeenBackbone(list, m.value.backbone) then Err(DuplicateBackbone)
      else Ok(list + [m.value])
  }

  /** The first error, else the mappings. */
  function Collect(items: seq<Item>): (r: Result<seq<Mapping>>)
    ensures r.Ok? ==> Usable(r.value) && |r.value| == |items|
  {
    if items == [] then Ok([])
    else
      var rest := Collect(items[..|items| - 1]);
      if rest.Err? then rest else Extended(rest.value, items[|items| - 1])
  }

  lemma {:induction false} ErrorsPersist(items: seq<Item>, i: nat)
    requires i <= |items| && Collect(items[..i]).Err?
    ensures Collect(items) == Collect(items[..i])
  {
    if i < |items| {
      assert items[..|items| - 1][..i] == items[..i];
      ErrorsPersist(items[..|items| - 1], i);
    } else {
      assert items[..i] == items;
    }
  }

  lemma CollectNext(items: seq<Item>, i: nat, list: seq<Mapping>)
    requires i < |items| && Collect(items[..i]) == Ok(list)
    ensures Collect(items[..i + 1]) == Extended(list, items[i])
  {
    assert items[..i + 1][..i] == items[..i];
  }

  /** Items that stand for `list`, with an error where a port is out of range. */
  predicate Reads(items: seq<Item>, list: seq<Mapping>) {
    |items| == |list| &&
    forall i :: 0 <= i < |items| ==> if PortsInRange(list[i]) then items[i] == Ok(list[i]) else items[i].Err?
  }

  lemma {:induction false} CollectDecides(items: seq<Item>, list: seq<Mapping>)
    requires Reads(items, list)
    ensures if Usable(list) then Collect(items) == Ok(list) else Collect(items).Err?
  {
    if list != [] {
      var n := |list| - 1;
      assert Reads(items[..n], list[..n]);
      CollectDecides(items[..n], list[..n]);
      UsableExtends(list[..n], list[n]);
      assert list == list[..n] + [list[n]];
    }
  }

  /** The ports a loop has collected in its two sets. */
  ghost predicate Collected(list: seq<Mapping>, publicSeen: set<int>, backboneSeen: set<int>) {
    && (forall p :: p in publicSeen <==> SeenPublic(list, p))
    && (forall p :: p in backboneSeen <==> SeenBackbone(list, p))
  }

  lemma CollectedGrows(list: seq<Mapping>, publicSeen: set<int>, backboneSeen: set<int>, m: Mapping)
    requires Collected(list, publicSeen, backboneSeen)
    ensures Collected(list + [m], publicSeen + {m.public}, backboneSeen + {m.backbone})
  {
    var longer := list + [m];
    assert longer[|list|] == m;
    forall p ensures SeenPublic(longer, p) <==> SeenPublic(list, p) || p == m.public {
      if SeenPublic(list, p) { var i :| 0 <= i < |list| && list[i].public == p; assert longer[i].public == p; }
    }
    forall p ensures SeenBackbone(longer, p) <==> SeenBackbone(list, p) || p == m.backbone {
      if SeenBackbone(list, p) { var i :| 0 <= i < |list| && list[i].backbone == p; assert longer[i].backbone == p; }
    }
  }

  /** Why the next mapping is refused, going by the two sets. */
  function Refusal(m: Item, publicSeen: set<int>, backboneSeen: set<int>): Option<Error> {
    if m.Err? then Some(m.error)
    else if m.value.public in publicSeen then Some(DuplicatePublic)
    else if m.value.backbone in backboneSeen then Some(DuplicateBackbone)
    else None
  }

  lemma SetsDecide(list: seq<Mapping>, publicSeen: set<int>, backboneSeen: set<int>, m: Item)
    requires Collected(list, publicSeen, backboneSeen) && Usable(list)
    ensures var refusal := Refusal(m, publicSeen, backboneSeen);
      if refusal.Some? then Extended(list, m) == Err(refusal.value)
      else m.Ok? && Extended(list, m) == Ok(list + [m.value])
           && Collected(list + [m.value], publicSeen + {m.value.public}, backboneSeen + {m.value.backbone})
  {
    if m.Ok? { CollectedGrows(list, publicSeen, backboneSeen, m.value); }
  }

  /** One turn of either loop. */
  lemma LoopStep(items: seq<Item>, i: nat, list: seq<Mapping>, publicSeen: set<int>, backboneSeen: set<int>)
    requires i < |items| && Collect(items[..i]) == Ok(list) && Collected(list, publicSeen, backboneSeen)
    ensures var m, refusal := items[i], Refusal(items[i], publicSeen, backboneSeen);
      if refusal.Some? then Collect(items) == Err(refusal.value)
      else m.Ok? && Collect(items[..i + 1]) == Ok(list + [m.value])
           && Collected(list + [m.value], publicSeen + {m.value.public}, backboneSeen + {m.value.backbone})
  {
    CollectNext(items, i, list);
    SetsDecide(list, publicSeen, backboneSeen, items[i]);
    if Refusal(items[i], publicSeen, backboneSeen).Some? { ErrorsPersist(items, i + 1); }
  }

  function StripAll(texts: seq<string>): (r: seq<string>)
    ensures |r| == |texts|
  {
    seq(|texts|, i requires 0 <= i < |texts| => Strip(texts[i]))
  }

  function DropEmpty(texts: seq<string>): seq<string> {
    if texts == [] then []
    else
      var rest, last := DropEmpty(texts[..|texts| - 1]), texts[|texts| - 1];
      if last == [] then rest else rest + [last]
  }

  function NonBlank(texts: seq<string>): seq<string> { DropEmpty(StripAll(texts)) }

  lemma {:induction false} DropEmptyPrefix(texts: seq<string>, i: nat)
    requires i <= |texts|
    ensures DropEmpty(texts[..i]) <= DropEmpty(texts)
  {
    if i < |texts| {
      assert texts[..|texts| - 1][..i] == texts[..i];
      DropEmptyPrefix(texts[..|texts| - 1], i);
    } else {
      assert texts[..i] == texts;
    }
  }

  lemma {:induction false} DropEmptyKeepsAll(texts: seq<string>)
    requires forall i :: 0 <= i < |texts| ==> texts[i] != []
    ensures DropEmpty(texts) == texts
  {
    if texts != [] { DropEmptyKeepsAll(texts[..|texts| - 1]); }
  }

  // ---- the Hub -----------------------------------------------------------------------

  /** One mapping text: a missing target is the public port, a missing backbone is counted from the base. */
  function HubMapping(raw: string, base: int, index: nat): Item {
    var spec := MatchSpec(raw);
    if spec.None? then Err(Syntax)
    else
      var public := Value(spec.value.public);
      var target := if spec.value.target.Some? then Value(spec.value.target.value) else public;
      var backbone := if spec.value.backbone.Some? then Value(spec.value.backbone.value) else base + index;
      var m := Mapping(public, target, backbone);
      if PortsInRange(m) then Ok(m) else Err(PortRange)
  }

  function HubItems(specs: seq<string>, base: int): (r: seq<Item>)
    ensures |r| == |specs|
  {
    seq(|specs|, i requires 0 <= i < |specs| => HubMapping(specs[i], base, i))
  }

  function PrintPorts(ports: seq<int>): (r: seq<string>)
    ensures |r| == |ports|
  {
    seq(|ports|, i requires 0 <= i < |ports| => PrintInt(ports[i]))
  }

  /** The explicit mappings that are not blank, else the user ports. */
  function Specs(userPorts: seq<int>, explicit: seq<string>): seq<string> {
    if NonBlank(explicit) == [] then PrintPorts(userPorts) else NonBlank(explicit)
  }

  /** The mappings that the Hub accepts. */
  function Declared(userPorts: seq<int>, tunnelPort: int, explicit: seq<string>): (r: Result<seq<Mapping>>)
    ensures r.Ok? ==> Usable(r.value) && 1 <= |r.value| <= MAXIMUM
  {
    var specs := Specs(userPorts, explicit);
    if !InRange(tunnelPort) then Err(BackboneBase)
    else if specs == [] then Err(NoMapping)
    else if |specs| > MAXIMUM then Err(TooMany)
    else Collect(HubItems(specs, tunnelPort))
  }

  function Canonical(userPorts: seq<int>, tunnelPort: int, explicit: seq<string>): Result<seq<string>> {
    var r := Declared(userPorts, tunnelPort, explicit);
    if r.Ok? then Ok(PrintAll(r.value)) else Err(r.error)
  }

  /** The loop of canonical_realm_mappings. */
  method CanonicalLoop(specs: seq<string>, base: int) returns (r: Result<seq<string>>)
    ensures var list := Collect(HubItems(specs, base));
      r == if list.Ok? then Ok(PrintAll(list.value)) else Err(list.error)
  {
    hide HubMapping, MappingText;
    ghost var items := HubItems(specs, base);
    var mappings: seq<string> := [];
    var publicSeen, backboneSeen: set<int> := {}, {};
    ghost var list: seq<Mapping> := [];
    for index := 0 to |specs|
      invariant Collect(items[..index]) == Ok(list) && mappings == PrintAll(list)
      invariant Collected(list, publicSeen, backboneSeen)
    {
      var m := HubMapping(specs[index], base, index);
      LoopStep(items, index, list, publicSeen, backboneSeen);
      var refusal := Refusal(m, publicSeen, backboneSeen);
      if refusal.Some? { return Err(refusal.value); }
      publicSeen, backboneSeen := publicSeen + {m.value.public}, backboneSeen + {m.value.backbone};
      mappings := mappings + [MappingText(m.value)];
      list := list + [m.value];
    }
    assert items[..|specs|] == items;
    return Ok(mappings);
  }

  /** canonical_realm_mappings */
  method CanonicalRealmMappings(userPorts: seq<int>, tunnelPort: int, explicit: seq<string>)
    returns (r: Result<seq<string>>)
    ensures r == Canonical(userPorts, tunnelPort, explicit)
  {
    if !InRange(tunnelPort) { return Err(BackboneBase); }
    var specs := Specs(userPorts, explicit);
    if specs == [] { return Err(NoMapping); }
    if |specs| > MAXIMUM { return Err(TooMany); }
    r := CanonicalLoop(specs, tunnelPort);
  }

  // ---- the Agent ---------------------------------------------------------------------

  /** One mapping text: all three ports are required. */
  function AgentMapping(text: string): Item {
    var spec := MatchSpec(text);
    if spec.None? || spec.value.target.None? || spec.value.backbone.None? then Err(Syntax)
    else
      var m := Mapping(Value(spec.value.public), Value(spec.value.target.value), Value(spec.value.backbone.value));
      if PortsInRange(m) then Ok(m) else Err(PortRange)
  }

  function AgentItems(texts: seq<string>): (r: seq<Item>)
    ensures |r| == |texts|
  {
    seq(|texts|, i requires 0 <= i < |texts| => AgentMapping(texts[i]))
  }

  /** port_mappings when it is not empty, else maps. */
  function Parsed(portMappings: seq<string>, maps: string): (r: Result<seq<Mapping>>)
    ensures r.Ok? ==> Usable(r.value) && 1 <= |r.value| <= MAXIMUM
  {
    var r := Collect(AgentItems(NonBlank(if portMappings != [] then portMappings else Split(maps))));
    if r.Err? then r
    else if r.value == [] then Err(NoMapping)
    else if |r.value| > MAXIMUM then Err(TooMany)
    else r
  }

  /** The first `i` texts give the first `n` that are not empty. */
  predicate Skipped(texts: seq<string>, i: nat, n: nat)
    requires i <= |texts|
  {
    n <= |DropEmpty(texts)| && DropEmpty(texts[..i]) == DropEmpty(texts)[..n]
  }

  lemma SkipNext(texts: seq<string>, i: nat, n: nat)
    requires i < |texts| && Skipped(texts, i, n)
    ensures if texts[i] == [] then Skipped(texts, i + 1, n)
            else n < |DropEmpty(texts)| && DropEmpty(texts)[n] == texts[i] && Skipped(texts, i + 1, n + 1)
  {
    assert texts[..i + 1][..i] == texts[..i];
    DropEmptyPrefix(texts, i + 1);
    if texts[i] != [] {
      assert DropEmpty(texts[..i + 1]) == DropEmpty(texts)[..n] + [texts[i]];
    }
  }

  /** The loop of parse_mappings. */
  method ParseLoop(raw: seq<string>) returns (r: Result<seq<Mapping>>)
    ensures r == Collect(AgentItems(NonBlank(raw)))
  {
    hide AgentMapping, Strip;
    ghost var items := AgentItems(NonBlank(raw));
    var result: seq<Mapping> := [];
    var publicSeen, backboneSeen: set<int> := {}, {};
    for i := 0 to |raw|
      invariant Skipped(StripAll(raw), i, |result|)
      invariant Collect(items[..|result|]) == Ok(result)
      invariant Collected(result, publicSeen, backboneSeen)
    {
      var text := Strip(raw[i]);
      SkipNext(StripAll(raw), i, |result|);
      if text != [] {
        var m := AgentMapping(text);
        LoopStep(items, |result|, result, publicSeen, backboneSeen);
        var refusal := Refusal(m, publicSeen, backboneSeen);
        if refusal.Some? { return Err(refusal.value); }
        publicSeen, backboneSeen := publicSeen + {m.value.public}, backboneSeen + {m.value.backbone};
        result := result + [m.value];
      }
    }
    assert StripAll(raw)[..|raw|] == StripAll(raw);
    assert items[..|result|] == items;
    return Ok(result);
  }

  /** parse_mappings */
  method ParseMappings(portMappings: seq<string>, maps: string) returns (r: Result<seq<Mapping>>)
    ensures r == Parsed(portMappings, maps)
  {
    r := ParseLoop(if portMappings != [] then portMappings else Split(maps));
    if r.Ok? && r.value == [] { return Err(NoMapping); }
    if r.Ok? && |r.value| > MAXIMUM { return Err(TooMany); }
  }

  // ---- round trips -------------------------------------------------------------------

  /** Ports of at most five digits, in range or not. */
  predicate Printable(m: Mapping) {
    0 <= m.public < 100000 && 0 <= m.target < 100000 && 0 <= m.backbone < 100000
  }

  lemma PortPrints(port: int)
    requires 0 <= port < 100000
    ensures IsNumber(PrintInt(port)) && Value(PrintInt(port)) == port
  {
    assert Pow10(5) == 100000;
    PrintLength(port, 5);
    ValueOfPrint(port);
  }

  lemma MappingMatches(m: Mapping)
    requires Printable(m)
    ensures MatchSpec(MappingText(m)) ==
      Some(Spec(PrintInt(m.public), Some(PrintInt(m.target)), Some(PrintInt(m.backbone))))
  {
    PortPrints(m.public);
    PortPrints(m.target);
    PortPrints(m.backbone);
    var spec := Spec(PrintInt(m.public), Some(PrintInt(m.target)), Some(PrintInt(m.backbone)));
    assert MappingText(m) == Text(spec);
    MatchReadsText(spec);
  }

  lemma MappingPrints(m: Mapping, base: int, index: nat)
    requires Printable(m)
    ensures var r := if PortsInRange(m) then Ok(m) else Err(PortRange);
      AgentMapping(MappingText(m)) == r && HubMapping(MappingText(m), base, index) == r
  {
    MappingMatches(m);
    PortPrints(m.public);
    PortPrints(m.target);
    PortPrints(m.backbone);
  }

  lemma MappingTextIsPlain(m: Mapping)
    requires Printable(m)
    ensures var s := MappingText(m); Strip(s) == s && s != [] && ',' !in s
  {
    var s := MappingText(m);
    PortPrints(m.public);
    PortPrints(m.target);
    PortPrints(m.backbone);
    assert IsDigit(s[0]) && IsDigit(s[|s| - 1]);
    forall i | 0 <= i < |s| ensures s[i] != ',' {
      assert s[i] == '>' || s[i] == '@' || IsDigit(s[i]);
    }
  }

  lemma PrintedIsNonBlank(list: seq<Mapping>)
    requires forall i :: 0 <= i < |list| ==> Printable(list[i])
    ensures NonBlank(PrintAll(list)) == PrintAll(list)
  {
    forall i | 0 <= i < |list| ensures StripAll(PrintAll(list))[i] == PrintAll(list)[i] != [] {
      MappingTextIsPlain(list[i]);
    }
    assert StripAll(PrintAll(list)) == PrintAll(list);
    DropEmptyKeepsAll(PrintAll(list));
  }

  lemma PrintedReads(list: seq<Mapping>, base: int)
    requires forall i :: 0 <= i < |list| ==> Printable(list[i])
    ensures var agent, hub := Collect(AgentItems(PrintAll(list))), Collect(HubItems(PrintAll(list), base));
      if Usable(list) then agent == hub == Ok(list) else agent.Err? && hub.Err?
  {
    forall i | 0 <= i < |list|
      ensures var r := if PortsInRange(list[i]) then Ok(list[i]) else Err(PortRange);
        AgentItems(PrintAll(list))[i] == r && HubItems(PrintAll(list), base)[i] == r
    {
      MappingPrints(list[i], base, i);
    }
    CollectDecides(AgentItems(PrintAll(list)), list);
    CollectDecides(HubItems(PrintAll(list), base), list);
  }

  lemma ParsedEitherWay(texts: seq<string>)
    requires texts != [] && NonBlank(texts) == texts && forall i :: 0 <= i < |texts| ==> ',' !in texts[i]
    requires |texts| <= MAXIMUM
    ensures Parsed(texts, Join(texts)) == Parsed([], Join(texts)) == Collect(AgentItems(texts))
  {
    hide AgentItems, NonBlank, Collect, Split, Join;
    SplitOfJoin(texts);
  }

  /** The Agent reads a printed list back when it is usable and refuses it otherwise, from the list and from the
      comma-joined form alike. */
  lemma AgentReadsPrinted(list: seq<Mapping>)
    requires 1 <= |list| <= MAXIMUM && forall i :: 0 <= i < |list| ==> Printable(list[i])
    ensures var texts := PrintAll(list);
      Parsed(texts, Join(texts)) == Parsed([], Join(texts)) &&
      if Usable(list) then Parsed(texts, Join(texts)) == Ok(list) else Parsed(texts, Join(texts)).Err?
  {
    PrintedReads(list, 1);
    PrintedIsNonBlank(list);
    forall i | 0 <= i < |list| ensures ',' !in PrintAll(list)[i] {
      MappingTextIsPlain(list[i]);
    }
    ParsedEitherWay(PrintAll(list));
  }

  /** Whatever the Hub accepts, the Agent reads back as declared. */
  lemma AgentReadsWhatHubPrints(userPorts: seq<int>, tunnelPort: int, explicit: seq<string>)
    requires Canonical(userPorts, tunnelPort, explicit).Ok?
    ensures var texts := Canonical(userPorts, tunnelPort, explicit).value;
      Parsed(texts, Join(texts)) == Parsed([], Join(texts)) == Declared(userPorts, tunnelPort, explicit)
  {
    AgentReadsPrinted(Declared(userPorts, tunnelPort, explicit).value);
  }

  /** Canonicalising a canonical list again changes nothing, whatever ports and base come with it. */
  lemma CanonicalIsIdempotent(userPorts: seq<int>, tunnelPort: int, explicit: seq<string>, otherPorts: seq<int>,
                              otherBase: int)
    requires Canonical(userPorts, tunnelPort, explicit).Ok? && InRange(otherBase)
    ensures var texts := Canonical(userPorts, tunnelPort, explicit).value;
      Canonical(otherPorts, otherBase, texts) == Ok(texts)
  {
    var list := Declared(userPorts, tunnelPort, explicit).value;
    PrintedIsNonBlank(list);
    PrintedReads(list, otherBase);
  }

  // ---- plain port lists --------------------------------------------------------------

  function Consecutive(ports: seq<int>, base: int): (r: seq<Mapping>)
    ensures |r| == |ports|
  {
    seq(|ports|, i requires 0 <= i < |ports| => Mapping(ports[i], ports[i], base + i))
  }

  lemma PlainPort(port: int, base: int, index: nat)
    ensures var m, r := Mapping(port, port, base + index), HubMapping(PrintInt(port), base, index);
      if PortsInRange(m) then r == Ok(m) else r.Err?
  {
    var s := PrintInt(port);
    assert Pow10(5) == 100000;
    if 0 <= port < 100000 {
      PrintLength(port, 5);
      ValueOfPrint(port);
      MatchReadsText(Spec(s, None, None));
      assert Text(Spec(s, None, None)) == s;
    } else if port < 0 {
      assert DigitRun(s) == 0;
    } else {
      PrintLengthAtLeast(port, 5);
      DigitRunIs(s, []);
      assert s + [] == s;
    }
  }

  /** Without explicit mappings the Hub accepts exactly the distinct ports whose consecutive backbone ports all
      exist, and maps each port to itself. */
  lemma PlainPortsAccepted(userPorts: seq<int>, tunnelPort: int)
    ensures var list, r := Consecutive(userPorts, tunnelPort), Declared(userPorts, tunnelPort, []);
      if InRange(tunnelPort) && 1 <= |userPorts| <= MAXIMUM && Usable(list) then r == Ok(list) else r.Err?
  {
    var list, items := Consecutive(userPorts, tunnelPort), HubItems(PrintPorts(userPorts), tunnelPort);
    forall i | 0 <= i < |list| ensures if PortsInRange(list[i]) then items[i] == Ok(list[i]) else items[i].Err? {
      PlainPort(userPorts[i], tunnelPort, i);
    }
    CollectDecides(items, list);
  }
}
