/** What a user writes as port mappings, and what becomes of it: which lists are accepted, what they mean, how they are
    routed. Nothing here goes by how Hub and Agent compute it. */
module RealmSpecs {
  import opened Common
  import opened RealmText
  import opened RealmMappings
  import opened RealmRouting

  /** A line of the list: blank, or a specification of any of the four forms with space around it. */
  datatype Line = Blank(space: string) | Entry(before: string, spec: Spec, after: string) {
    predicate Valid() {
      match this
      case Blank(space) => AllSpace(space)
      case Entry(before, spec, after) => AllSpace(before) && WellFormed(spec) && AllSpace(after)
    }

    function AsText(): string {
      match this
      case Blank(space) => space
      case Entry(before, spec, after) => before + Text(spec) + after
    }
  }

  function Texts(lines: seq<Line>): (r: seq<string>)
    ensures |r| == |lines|
  {
    seq(|lines|, i requires 0 <= i < |lines| => lines[i].AsText())
  }

  function Entries(lines: seq<Line>): seq<Spec> {
    if lines == [] then []
    else
      var rest, last := Entries(lines[..|lines| - 1]), lines[|lines| - 1];
      if last.Blank? then rest else rest + [last.spec]
  }

  function SpecTexts(specs: seq<Spec>): (r: seq<string>)
    ensures |r| == |specs|
  {
    seq(|specs|, i requires 0 <= i < |specs| => Text(specs[i]))
  }

  lemma TextIsSolid(spec: Spec)
    requires WellFormed(spec)
    ensures var s := Text(spec); s != [] && IsDigit(s[0]) && IsDigit(s[|s| - 1]) && ',' !in s
  {
    var s := Text(spec);
    assert s[0] == spec.public[0];
    forall i | 0 <= i < |s| ensures s[i] != ',' { assert s[i] == '>' || s[i] == '@' || IsDigit(s[i]); }
  }

  lemma LineStrips(line: Line)
    requires line.Valid()
    ensures Strip(line.AsText()) == (if line.Blank? then [] else Text(line.spec)) && ',' !in line.AsText()
  {
    match line
    case Blank(space) =>
      StripDrops(space, [], []);
      assert space + [] + [] == space;
    case Entry(before, spec, after) =>
      TextIsSolid(spec);
      StripDrops(before, Text(spec), after);
  }

  /** Blank lines and the space around the others do not matter. */
  lemma {:induction false} LinesRead(lines: seq<Line>)
    requires forall i :: 0 <= i < |lines| ==> lines[i].Valid()
    ensures NonBlank(Texts(lines)) == SpecTexts(Entries(lines))
    ensures forall i :: 0 <= i < |Entries(lines)| ==> WellFormed(Entries(lines)[i])
  {
    if lines != [] {
      hide Strip, Text;
      var n := |lines| - 1;
      LinesRead(lines[..n]);
      LineStrips(lines[n]);
      assert StripAll(Texts(lines))[..n] == StripAll(Texts(lines[..n]));
      assert StripAll(Texts(lines))[n] == Strip(lines[n].AsText());
      if lines[n].Entry? { TextIsSolid(lines[n].spec); }
    }
  }

  lemma HubReadsSpec(spec: Spec, m: Mapping, base: int, index: nat)
    requires WellFormed(spec) && m.public == Value(spec.public)
    requires m.target == if spec.target.Some? then Value(spec.target.value) else m.public
    requires m.backbone == if spec.backbone.Some? then Value(spec.backbone.value) else base + index
    ensures HubMapping(Text(spec), base, index) == if PortsInRange(m) then Ok(m) else Err(PortRange)
  {
    MatchReadsText(spec);
    hide MatchSpec, Text, Value;
  }

  /** Ports from 1 to 65535, no public port twice and no backbone port twice. */
  predicate Acceptable(list: seq<Mapping>) {
    && (forall i :: 0 <= i < |list| ==>
         && 1 <= list[i].public <= 65535 && 1 <= list[i].target <= 65535 && 1 <= list[i].backbone <= 65535)
    && (forall i, j :: 0 <= i < j < |list| ==> list[i].public != list[j].public && list[i].backbone != list[j].backbone)
  }

  /** Any list of specifications, in any mixture of the four forms, is accepted exactly if the mappings it asks for have
      ports in range, no public port twice and no backbone port twice; and it then stands for these mappings. A missing
      target is the public port, a missing backbone port is counted from the tunnel's by the place in the list. */
  lemma SpecsAccepted(userPorts: seq<int>, tunnelPort: int, lines: seq<Line>, list: seq<Mapping>)
    requires forall i :: 0 <= i < |lines| ==> lines[i].Valid()
    requires 1 <= tunnelPort <= 65535 && 1 <= |Entries(lines)| == |list| <= 256
    requires forall i :: 0 <= i < |list| ==> var spec := Entries(lines)[i];
      && WellFormed(spec) && list[i].public == Value(spec.public)
      && list[i].target == (if spec.target.Some? then Value(spec.target.value) else Value(spec.public))
      && list[i].backbone == (if spec.backbone.Some? then Value(spec.backbone.value) else tunnelPort + i)
    ensures if Acceptable(list) then Canonical(userPorts, tunnelPort, Texts(lines)) == Ok(PrintAll(list))
            else Canonical(userPorts, tunnelPort, Texts(lines)).Err?
  {
    hide Text, Value, MatchSpec, WellFormed, HubMapping;
    var specs := Entries(lines);
    LinesRead(lines);
    var items := HubItems(SpecTexts(specs), tunnelPort);
    forall i | 0 <= i < |list| ensures items[i] == if PortsInRange(list[i]) then Ok(list[i]) else Err(PortRange) {
      HubReadsSpec(specs[i], list[i], tunnelPort, i);
    }
    CollectDecides(items, list);
  }

  /** With nothing but blank lines the user ports count. */
  lemma BlankLinesAreNone(userPorts: seq<int>, tunnelPort: int, lines: seq<Line>)
    requires forall i :: 0 <= i < |lines| ==> lines[i].Valid() && lines[i].Blank?
    ensures Canonical(userPorts, tunnelPort, Texts(lines)) == Canonical(userPorts, tunnelPort, [])
  {
    LinesRead(lines);
    NoEntries(lines);
    assert StripAll([]) == [];
  }

  lemma {:induction false} NoEntries(lines: seq<Line>)
    requires forall i :: 0 <= i < |lines| ==> lines[i].Blank?
    ensures Entries(lines) == []
  {
    if lines != [] { NoEntries(lines[..|lines| - 1]); }
  }

  lemma AgentReadsSpec(spec: Spec)
    requires WellFormed(spec)
    ensures AgentMapping(Text(spec)) ==
      if spec.target.None? || spec.backbone.None? then Err(Syntax)
      else
        var m := Mapping(Value(spec.public), Value(spec.target.value), Value(spec.backbone.value));
        if PortsInRange(m) then Ok(m) else Err(PortRange)
  {
    MatchReadsText(spec);
    hide MatchSpec, Text;
  }

  /** The Agent asks for all three ports: it accepts such a list exactly if it is usable, from the list and from the
      comma-joined form alike. */
  lemma AgentAccepts(lines: seq<Line>, list: seq<Mapping>)
    requires forall i :: 0 <= i < |lines| ==> lines[i].Valid()
    requires 1 <= |Entries(lines)| == |list| <= 256
    requires forall i :: 0 <= i < |list| ==> var spec := Entries(lines)[i];
      && WellFormed(spec) && spec.target.Some? && spec.backbone.Some?
      && list[i] == Mapping(Value(spec.public), Value(spec.target.value), Value(spec.backbone.value))
    ensures var texts := Texts(lines);
      && Parsed([], Join(texts)) == Parsed(texts, [])
      && if Usable(list) then Parsed(texts, []) == Ok(list) else Parsed(texts, []).Err?
  {
    hide Text, Value, MatchSpec, WellFormed, AgentMapping;
    var specs := Entries(lines);
    LinesRead(lines);
    var items := AgentItems(SpecTexts(specs));
    forall i | 0 <= i < |list| ensures items[i] == if PortsInRange(list[i]) then Ok(list[i]) else Err(PortRange) {
      AgentReadsSpec(specs[i]);
    }
    CollectDecides(items, list);
    JoinedAlike(lines);
  }

  lemma JoinedAlike(lines: seq<Line>)
    requires lines != [] && forall i :: 0 <= i < |lines| ==> lines[i].Valid()
    ensures Split(Join(Texts(lines))) == Texts(lines)
  {
    forall i | 0 <= i < |lines| ensures ',' !in Texts(lines)[i] { LineStrips(lines[i]); }
    SplitOfJoin(Texts(lines));
  }

  /** A specification that lacks a part is refused by the Agent, wherever it stands. */
  lemma AgentWantsAllParts(lines: seq<Line>, k: nat)
    requires forall i :: 0 <= i < |lines| ==> lines[i].Valid()
    requires k < |Entries(lines)| && (Entries(lines)[k].target.None? || Entries(lines)[k].backbone.None?)
    ensures Parsed(Texts(lines), []).Err?
  {
    var specs := Entries(lines);
    LinesRead(lines);
    AgentReadsSpec(specs[k]);
    OneErrorIsEnough(AgentItems(SpecTexts(specs)), k);
  }

  lemma {:induction false} OneErrorIsEnough(items: seq<Item>, k: nat)
    requires k < |items| && items[k].Err?
    ensures Collect(items).Err?
  {
    if k < |items| - 1 { OneErrorIsEnough(items[..|items| - 1], k); }
  }

  /** The first mapping that cannot be added decides the error. */
  lemma FirstErrorDecides(items: seq<Item>, i: nat, list: seq<Mapping>)
    requires i < |items| && Collect(items[..i]) == Ok(list)
    requires items[i].Ok? ==> SeenPublic(list, items[i].value.public) || SeenBackbone(list, items[i].value.backbone)
    ensures Collect(items) ==
      if items[i].Err? then Err(items[i].error)
      else if SeenPublic(list, items[i].value.public) then Err(DuplicatePublic)
      else Err(DuplicateBackbone)
  {
    CollectNext(items, i, list);
    ErrorsPersist(items, i + 1);
  }

  lemma ListRouted(list: seq<Mapping>, gatewayHost: string, targetHost: string)
    requires Usable(list)
    ensures var edge, gateway := Endpoints(Edge, gatewayHost, targetHost, list),
      Endpoints(Gateway, gatewayHost, targetHost, list);
      && (forall i :: 0 <= i < |list| ==>
           && Route(edge, list[i].public) == Some((gatewayHost, list[i].backbone))
           && Route(gateway, list[i].backbone) == Some((targetHost, list[i].target)))
      && (forall port :: !SeenPublic(list, port) ==> Route(edge, port) == None)
      && (forall port :: !SeenBackbone(list, port) ==> Route(gateway, port) == None)
  {
    var edge, gateway := Endpoints(Edge, gatewayHost, targetHost, list),
      Endpoints(Gateway, gatewayHost, targetHost, list);
    forall i | 0 <= i < |list|
      ensures Route(edge, list[i].public) == Some((gatewayHost, list[i].backbone))
      ensures Route(gateway, list[i].backbone) == Some((targetHost, list[i].target))
    {
      RouteFinds(edge, i);
      RouteFinds(gateway, i);
    }
    forall port | !SeenPublic(list, port) ensures Route(edge, port) == None { RouteMisses(edge, port); }
    forall port | !SeenBackbone(list, port) ensures Route(gateway, port) == None { RouteMisses(gateway, port); }
  }

  lemma PrintedParses(list: seq<Mapping>)
    requires Usable(list) && 1 <= |list| <= 256
    ensures Parsed(PrintAll(list), []) == Parsed([], Join(PrintAll(list))) == Ok(list)
  {
    AgentReadsPrinted(list);
    hide PrintAll, Join, Collect;
  }

  lemma PrintedListRouted(list: seq<Mapping>, gatewayHost: string, targetHost: string)
    requires Usable(list) && 1 <= |list| <= 256
    ensures var edge := Rendered(Edge, gatewayHost, targetHost, PrintAll(list), []);
      var gateway := Rendered(Gateway, gatewayHost, targetHost, [], Join(PrintAll(list)));
      && edge.Ok? && gateway.Ok?
      && (forall i :: 0 <= i < |list| ==>
           && Route(edge.value, list[i].public) == Some((gatewayHost, list[i].backbone))
           && Route(gateway.value, list[i].backbone) == Some((targetHost, list[i].target)))
      && (forall port :: !SeenPublic(list, port) ==> Route(edge.value, port) == None)
      && (forall port :: !SeenBackbone(list, port) ==> Route(gateway.value, port) == None)
  {
    PrintedParses(list);
    ListRouted(list, gatewayHost, targetHost);
    hide Parsed, PrintAll, Join, Usable, Route, Endpoints, SeenPublic, SeenBackbone;
  }

  /** The specifications are routed as they say: a connection to a public port goes to the gateway's backbone port and
      from there to the target; no other port is listened on at either end. */
  lemma SpecsRouted(userPorts: seq<int>, tunnelPort: int, lines: seq<Line>, list: seq<Mapping>, gatewayHost: string,
                    targetHost: string)
    requires forall i :: 0 <= i < |lines| ==> lines[i].Valid()
    requires InRange(tunnelPort) && 1 <= |Entries(lines)| == |list| <= 256 && Usable(list)
    requires forall i :: 0 <= i < |list| ==> var spec := Entries(lines)[i];
      && WellFormed(spec) && list[i].public == Value(spec.public)
      && list[i].target == (if spec.target.Some? then Value(spec.target.value) else Value(spec.public))
      && list[i].backbone == (if spec.backbone.Some? then Value(spec.backbone.value) else tunnelPort + i)
    ensures var canonical := Canonical(userPorts, tunnelPort, Texts(lines));
      && canonical.Ok?
      && var edge := Rendered(Edge, gatewayHost, targetHost, canonical.value, []);
         var gateway := Rendered(Gateway, gatewayHost, targetHost, [], Join(canonical.value));
         && edge.Ok? && gateway.Ok?
         && (forall i :: 0 <= i < |list| ==>
              && Route(edge.value, list[i].public) == Some((gatewayHost, list[i].backbone))
              && Route(gateway.value, list[i].backbone) == Some((targetHost, list[i].target)))
         && (forall port :: !SeenPublic(list, port) ==> Route(edge.value, port) == None)
         && (forall port :: !SeenBackbone(list, port) ==> Route(gateway.value, port) == None)
  {
    SpecsAccepted(userPorts, tunnelPort, lines, list);
    hide *;
    PrintedListRouted(list, gatewayHost, targetHost);
  }

  /** What a reconfiguration makes of a stored mapping, whatever its form: target and backbone are kept only if both are
      there. */
  lemma RebuiltFromSpec(ports: seq<int>, oldMaps: seq<string>, tunnelPort: int, i: nat, spec: Spec)
    requires i < |ports| && (i < |oldMaps| ==> WellFormed(spec) && oldMaps[i] == Text(spec))
    ensures RebuiltAt(ports, oldMaps, tunnelPort, i) ==
      if i < |oldMaps| && spec.target.Some? && spec.backbone.Some?
      then Mapping(ports[i], Value(spec.target.value), Value(spec.backbone.value))
      else Mapping(ports[i], ports[i], tunnelPort + i)
  {
    if i < |oldMaps| { MatchReadsText(spec); }
    hide MatchSpec, Text;
  }
}
