/** The rendered configurations route as declared; reconfiguring a tunnel rebuilds its mappings. */
module RealmRouting {
  import opened Common
  import opened RealmText
  import opened RealmMappings

  datatype Role = Edge | Gateway

  /** An [[endpoints]] table: the port listened on and the remote address. */
  datatype Endpoint = Endpoint(listen: int, host: string, port: int)

  function EndpointOf(role: Role, gatewayHost: string, targetHost: string, m: Mapping): Endpoint {
    match role
    case Edge => Endpoint(m.public, gatewayHost, m.backbone)
    case Gateway => Endpoint(m.backbone, targetHost, m.target)
  }

  function Endpoints(role: Role, gatewayHost: string, targetHost: string, list: seq<Mapping>): (r: seq<Endpoint>)
    ensures |r| == |list|
  {
    seq(|list|, i requires 0 <= i < |list| => EndpointOf(role, gatewayHost, targetHost, list[i]))
  }

  /** The endpoints that render_config writes, or its error. */
  function Rendered(role: Role, gatewayHost: string, targetHost: string, portMappings: seq<string>,
                    maps: string): Result<seq<Endpoint>> {
    var list := Parsed(portMappings, maps);
    if list.Err? then Err(list.error) else Ok(Endpoints(role, gatewayHost, targetHost, list.value))
  }

  /** render_config, without the text around the endpoints. */
  method RenderConfig(role: Role, gatewayHost: string, targetHost: string, portMappings: seq<string>, maps: string)
    returns (r: Result<seq<Endpoint>>)
    ensures r == Rendered(role, gatewayHost, targetHost, portMappings, maps)
  {
    hide Parsed;
    var parsed := ParseMappings(portMappings, maps);
    if parsed.Err? { return Err(parsed.error); }
    var lines: seq<Endpoint> := [];
    for i := 0 to |parsed.value|
      invariant lines == Endpoints(role, gatewayHost, targetHost, parsed.value[..i])
    {
      var m := parsed.value[i];
      if role == Edge {
        lines := lines + [Endpoint(m.public, gatewayHost, m.backbone)];
      } else {
        lines := lines + [Endpoint(m.backbone, targetHost, m.target)];
      }
    }
    assert parsed.value[..|parsed.value|] == parsed.value;
    return Ok(lines);
  }

  /** Where a connection to a port is sent. */
  function Route(table: seq<Endpoint>, port: int): Option<(string, int)> {
    if table == [] then None
    else if table[0].listen == port then Some((table[0].host, table[0].port))
    else Route(table[1..], port)
  }

  /** Where a connection to the edge ends up. */
  function Through(edge: seq<Endpoint>, gatewayHost: string, gateway: seq<Endpoint>, port: int): Option<(string, int)> {
    var hop := Route(edge, port);
    if hop.None? || hop.value.0 != gatewayHost then None else Route(gateway, hop.value.1)
  }

  lemma {:induction false} RouteFinds(table: seq<Endpoint>, i: nat)
    requires i < |table| && forall j :: 0 <= j < i ==> table[j].listen != table[i].listen
    ensures Route(table, table[i].listen) == Some((table[i].host, table[i].port))
  {
    if i > 0 { RouteFinds(table[1..], i - 1); }
  }

  lemma {:induction false} RouteMisses(table: seq<Endpoint>, port: int)
    requires forall j :: 0 <= j < |table| ==> table[j].listen != port
    ensures Route(table, port) == None
  {
    if table != [] { RouteMisses(table[1..], port); }
  }

  lemma PublicPortIsRouted(list: seq<Mapping>, gatewayHost: string, targetHost: string, i: nat)
    requires Usable(list) && i < |list|
    ensures var edge, gateway := Endpoints(Edge, gatewayHost, targetHost, list),
      Endpoints(Gateway, gatewayHost, targetHost, list);
      Through(edge, gatewayHost, gateway, list[i].public) == Some((targetHost, list[i].target))
  {
    RouteFinds(Endpoints(Edge, gatewayHost, targetHost, list), i);
    RouteFinds(Endpoints(Gateway, gatewayHost, targetHost, list), i);
  }

  lemma OtherPortIsNotRouted(list: seq<Mapping>, gatewayHost: string, targetHost: string, port: int)
    requires !SeenPublic(list, port)
    ensures Route(Endpoints(Edge, gatewayHost, targetHost, list), port) == None
  {
    RouteMisses(Endpoints(Edge, gatewayHost, targetHost, list), port);
  }

  /** From whatever the Hub accepts, the edge rendered from the printed list and the gateway rendered from the
      joined form together send each declared public port to its declared target, and no other port anywhere. */
  lemma RoutingIsAsDeclared(userPorts: seq<int>, tunnelPort: int, explicit: seq<string>, gatewayHost: string,
                            targetHost: string)
    requires Canonical(userPorts, tunnelPort, explicit).Ok?
    ensures var texts := Canonical(userPorts, tunnelPort, explicit).value;
      var list := Declared(userPorts, tunnelPort, explicit).value;
      var edge := Rendered(Edge, gatewayHost, targetHost, texts, []);
      var gateway := Rendered(Gateway, gatewayHost, targetHost, [], Join(texts));
      && edge.Ok? && gateway.Ok?
      && (forall i :: 0 <= i < |list| ==>
           Through(edge.value, gatewayHost, gateway.value, list[i].public) == Some((targetHost, list[i].target)))
      && (forall port :: !SeenPublic(list, port) ==> Route(edge.value, port) == None)
  {
    AgentReadsWhatHubPrints(userPorts, tunnelPort, explicit);
    var list := Declared(userPorts, tunnelPort, explicit).value;
    forall i | 0 <= i < |list| ensures Through(Endpoints(Edge, gatewayHost, targetHost, list), gatewayHost,
        Endpoints(Gateway, gatewayHost, targetHost, list), list[i].public) == Some((targetHost, list[i].target)) {
      PublicPortIsRouted(list, gatewayHost, targetHost, i);
    }
    forall port | !SeenPublic(list, port) ensures Route(Endpoints(Edge, gatewayHost, targetHost, list), port) == None {
      OtherPortIsNotRouted(list, gatewayHost, targetHost, port);
    }
  }

  // ---- reconfigure -------------------------------------------------------------------

  predicate Increasing(ports: seq<int>) { forall i, j :: 0 <= i < j < |ports| ==> ports[i] < ports[j] }

  /** The rebuilt mapping at one index: target and backbone of the old one there, if its text has all three parts. */
  function RebuiltAt(ports: seq<int>, oldMaps: seq<string>, tunnelPort: int, i: nat): Mapping
    requires i < |ports|
  {
    var fallback := Mapping(ports[i], ports[i], tunnelPort + i);
    if i >= |oldMaps| then fallback
    else
      var spec := MatchSpec(oldMaps[i]);
      if spec.None? || spec.value.target.None? || spec.value.backbone.None? then fallback
      else
        Mapping(ports[i], Value(spec.value.target.value), Value(spec.value.backbone.value))
  }

  function Rebuilt(ports: seq<int>, oldMaps: seq<string>, tunnelPort: int): (r: seq<Mapping>)
    ensures |r| == |ports|
  {
    seq(|ports|, i requires 0 <= i < |ports| => RebuiltAt(ports, oldMaps, tunnelPort, i))
  }

  /** The loop of reconfigure_tunnel_mutation; its result is not canonicalised again. */
  method RebuildMappings(ports: seq<int>, oldMaps: seq<string>, tunnelPort: int) returns (rebuilt: seq<string>)
    ensures rebuilt == PrintAll(Rebuilt(ports, oldMaps, tunnelPort))
  {
    hide MatchSpec, MappingText;
    rebuilt := [];
    for index := 0 to |ports|
      invariant rebuilt == PrintAll(Rebuilt(ports, oldMaps, tunnelPort)[..index])
    {
      var target, backbone := ports[index], tunnelPort + index;
      if index < |oldMaps| {
        var spec := MatchSpec(oldMaps[index]);
        if spec.Some? && spec.value.target.Some? && spec.value.backbone.Some? {
          target, backbone := Value(spec.value.target.value), Value(spec.value.backbone.value);
        }
      }
      rebuilt := rebuilt + [MappingText(Mapping(ports[index], target, backbone))];
    }
    assert Rebuilt(ports, oldMaps, tunnelPort)[..|ports|] == Rebuilt(ports, oldMaps, tunnelPort);
  }

  lemma RebuiltFromPrinted(ports: seq<int>, before: seq<Mapping>, tunnelPort: int, i: nat)
    requires i < |ports| && Usable(before)
    ensures RebuiltAt(ports, PrintAll(before), tunnelPort, i) ==
      if i < |before| then before[i].(public := ports[i]) else Mapping(ports[i], ports[i], tunnelPort + i)
  {
    if i < |before| {
      MappingMatches(before[i]);
      PortPrints(before[i].target);
      PortPrints(before[i].backbone);
    }
  }

  predicate Free(before: seq<Mapping>, tunnelPort: int, index: nat) {
    InRange(tunnelPort + index) && !SeenBackbone(before, tunnelPort + index)
  }

  /** The backbone ports counted for the additional mappings exist and are not in use. */
  predicate RoomForMore(ports: seq<int>, before: seq<Mapping>, tunnelPort: int) {
    forall i :: |before| <= i < |ports| ==> Free(before, tunnelPort, i)
  }

  lemma RebuiltUsable(ports: seq<int>, before: seq<Mapping>, tunnelPort: int)
    requires Usable(before) && Increasing(ports) && forall i :: 0 <= i < |ports| ==> InRange(ports[i])
    ensures Usable(Rebuilt(ports, PrintAll(before), tunnelPort)) <==> RoomForMore(ports, before, tunnelPort)
  {
    var list := Rebuilt(ports, PrintAll(before), tunnelPort);
    forall i | 0 <= i < |list|
      ensures list[i] ==
        if i < |before| then before[i].(public := ports[i]) else Mapping(ports[i], ports[i], tunnelPort + i)
    {
      RebuiltFromPrinted(ports, before, tunnelPort, i);
    }
    if Usable(list) {
      forall i: nat | |before| <= i < |ports| ensures Free(before, tunnelPort, i) {
        assert PortsInRange(list[i]);
        forall k | 0 <= k < |before| ensures before[k].backbone != tunnelPort + i {
          assert list[k].backbone != list[i].backbone;
        }
      }
    } else if RoomForMore(ports, before, tunnelPort) {
      forall i | 0 <= i < |list| ensures PortsInRange(list[i]) {
        if |before| <= i { assert Free(before, tunnelPort, i); }
      }
      forall i, j | 0 <= i < j < |list|
        ensures list[i].public != list[j].public && list[i].backbone != list[j].backbone {
        if i < |before| <= j { assert Free(before, tunnelPort, j); }
      }
      assert false;
    }
  }

  /** A reconfigured tunnel is accepted by its Agents exactly when the counted backbone ports are free: the Hub does
      not check. */
  lemma ReconfigureIsAcceptedExactly(ports: seq<int>, before: seq<Mapping>, tunnelPort: int)
    requires Usable(before) && InRange(tunnelPort)
    requires 1 <= |ports| <= MAXIMUM && Increasing(ports) && forall i :: 0 <= i < |ports| ==> InRange(ports[i])
    ensures var list := Rebuilt(ports, PrintAll(before), tunnelPort);
      Parsed(PrintAll(list), Join(PrintAll(list))).Ok? <==> RoomForMore(ports, before, tunnelPort)
  {
    var list := Rebuilt(ports, PrintAll(before), tunnelPort);
    forall i | 0 <= i < |list| ensures Printable(list[i]) {
      RebuiltFromPrinted(ports, before, tunnelPort, i);
    }
    RebuiltUsable(ports, before, tunnelPort);
    AgentReadsPrinted(list);
  }

  /** Two mappings accepted by the Hub and one port more: the counted backbone port is already taken, and the
      Agents refuse what the Hub has stored. */
  lemma ReconfigureCanDuplicateBackbone()
    ensures var before := [Mapping(80, 80, 3082), Mapping(81, 81, 3081)];
      var list := Rebuilt([80, 81, 82], PrintAll(before), 3080);
      Usable(before) && list[0].backbone == list[2].backbone && Parsed(PrintAll(list), Join(PrintAll(list))).Err?
  {
    hide RebuiltAt, PrintAll, Parsed, Join;
    var before := [Mapping(80, 80, 3082), Mapping(81, 81, 3081)];
    assert before[0].backbone == 3080 + 2;
    assert !Free(before, 3080, 2);
    RebuiltFromPrinted([80, 81, 82], before, 3080, 0);
    RebuiltFromPrinted([80, 81, 82], before, 3080, 2);
    ReconfigureIsAcceptedExactly([80, 81, 82], before, 3080);
  }

  /** The same with a backbone port that does not exist. */
  lemma ReconfigureCanRunOutOfPorts()
    ensures var before := [Mapping(80, 80, 65535)];
      var list := Rebuilt([80, 81], PrintAll(before), 65535);
      Usable(before) && list[1].backbone == 65536 && Parsed(PrintAll(list), Join(PrintAll(list))).Err?
  {
    hide RebuiltAt, PrintAll, Parsed, Join;
    var before := [Mapping(80, 80, 65535)];
    assert !Free(before, 65535, 1);
    RebuiltFromPrinted([80, 81], before, 65535, 1);
    ReconfigureIsAcceptedExactly([80, 81], before, 65535);
  }

  function Publics(list: seq<Mapping>): (r: seq<int>)
    ensures |r| == |list|
  {
    seq(|list|, i requires 0 <= i < |list| => list[i].public)
  }

  lemma HasFirst(s: seq<int>)
    requires s != []
    ensures s[0] in s
  {
  }

  lemma {:induction false} IncreasingIsUnique(a: seq<int>, b: seq<int>)
    requires Increasing(a) && Increasing(b) && forall x :: x in a <==> x in b
    ensures a == b
  {
    if a == [] {
      if b != [] { HasFirst(b); }
    } else {
      HasFirst(a);
      var m, n := |a| - 1, |b| - 1;
      assert a[m] in b && b[n] in a;
      assert a[m] == b[n];
      forall x ensures x in a[..m] <==> x in b[..n] {
        assert x in a[..m] <==> x in a && x != a[m];
        assert x in b[..n] <==> x in b && x != b[n];
      }
      IncreasingIsUnique(a[..m], b[..n]);
      assert a == a[..m] + [a[m]] && b == b[..n] + [b[n]];
    }
  }

  /** Reconfiguring with the ports a tunnel already has (say, for another profile) leaves its mappings as they are
      exactly when they were listed by increasing public port; otherwise targets move to other ports. */
  lemma SamePortsKeepMappingsExactly(ports: seq<int>, before: seq<Mapping>, tunnelPort: int)
    requires Usable(before) && Increasing(ports) && forall p :: p in ports <==> p in Publics(before)
    ensures Rebuilt(ports, PrintAll(before), tunnelPort) == before <==> Increasing(Publics(before))
  {
    var list := Rebuilt(ports, PrintAll(before), tunnelPort);
    forall i | 0 <= i < |list|
      ensures list[i].public == ports[i] && (i < |before| ==> list[i] == before[i].(public := ports[i]))
    {
      RebuiltFromPrinted(ports, before, tunnelPort, i);
    }
    if Increasing(Publics(before)) {
      IncreasingIsUnique(ports, Publics(before));
      assert forall i :: 0 <= i < |list| ==> Publics(before)[i] == before[i].public;
    }
    assert Publics(list) == ports;
  }

  /** Mappings listed with port 443 before port 80: reconfiguring with the same two ports swaps their targets. */
  lemma ReconfigureCanMoveTargets()
    ensures var before := [Mapping(443, 8443, 3080), Mapping(80, 8080, 3081)];
      && Usable(before)
      && Rebuilt([80, 443], PrintAll(before), 3080) == [Mapping(80, 8443, 3080), Mapping(443, 8080, 3081)]
  {
    hide RebuiltAt, PrintAll, Parsed, Join;
    var before := [Mapping(443, 8443, 3080), Mapping(80, 8080, 3081)];
    assert Usable(before);
    RebuiltFromPrinted([80, 443], before, 3080, 0);
    RebuiltFromPrinted([80, 443], before, 3080, 1);
  }
}
