/** UFW rules of Realm tunnels, tracked by an ownership file in each tunnel's directory.

    `ufw allow` adds a rule exactly when it is absent, deletes succeed, and a failing command has no effect. */
module RealmFirewall {
  import opened Common

  /** A tunnel directory: the ports of ports.list that this side listens on, and ufw-created.json. */
  datatype Directory = Directory(ports: seq<int>, owned: Option<seq<int>>)

  datatype Host = Host(rules: set<int>, tunnels: map<string, Directory>)

  /** Where a deploy raises; Allowing(k) is the k-th `ufw allow`. */
  datatype Fault =
    | NoFault | Installing | PortConflict | WritingFiles | Allowing(k: nat) | WritingOwnership | Starting | SavingConfig

  datatype Event =
    | Deploy(name: string, ports: seq<int>, active: bool, fault: Fault)
    | Remove(name: string)

  function Elements(s: seq<int>): set<int> { set x | x in s }

  predicate NoDuplicates(s: seq<int>) { forall i, j :: 0 <= i < j < |s| ==> s[i] != s[j] }

  /** The elements once each, in the order of their first occurrence. */
  function Distinct(s: seq<int>): (r: seq<int>)
    ensures NoDuplicates(r) && Elements(r) == Elements(s)
  {
    if s == [] then []
    else
      var rest, last := Distinct(s[..|s| - 1]), s[|s| - 1];
      assert s == s[..|s| - 1] + [last];
      assert forall x :: x in s <==> x in Elements(rest) || x == last;
      if last in rest then rest else rest + [last]
  }

  /** The rules that allowing `ports` one after the other adds. */
  function Created(rules: set<int>, ports: seq<int>): (r: seq<int>)
    ensures NoDuplicates(r) && Elements(r) == Elements(ports) - rules
  {
    if ports == [] then []
    else
      var rest, last := Created(rules, ports[..|ports| - 1]), ports[|ports| - 1];
      assert ports == ports[..|ports| - 1] + [last];
      assert forall x :: x in ports <==> x in Elements(ports[..|ports| - 1]) || x == last;
      assert forall x :: x in rest <==> x in Elements(rest);
      if last in rules || last in rest then rest else rest + [last]
  }

  function OwnershipFile(h: Host, name: string): Option<seq<int>> {
    if name in h.tunnels then h.tunnels[name].owned else None
  }

  function OwnedList(h: Host, name: string): seq<int> {
    if OwnershipFile(h, name).Some? then OwnershipFile(h, name).value else []
  }

  predicate Owns(h: Host, name: string, port: int) { port in OwnedList(h, name) }

  /** Whether _configure_ufw raises. */
  predicate ConfigureFails(ports: seq<int>, active: bool, fault: Fault) {
    active && ((fault.Allowing? && fault.k < |ports|) || fault.WritingOwnership?)
  }

  /** Whether the deploy raises. */
  predicate Fails(ports: seq<int>, active: bool, fault: Fault) {
    ConfigureFails(ports, active, fault) ||
    fault.Installing? || fault.PortConflict? || fault.WritingFiles? || fault.Starting? || fault.SavingConfig?
  }

  /** The configuration files are in place, the ownership file is as before. */
  function Written(h: Host, name: string, ports: seq<int>): Host {
    h.(tunnels := h.tunnels[name := Directory(ports, OwnershipFile(h, name))])
  }

  /** The ports are open and the new ones recorded. */
  function Configured(h: Host, name: string, ports: seq<int>): Host
    requires name in h.tunnels
  {
    var created := Created(h.rules, ports);
    Host(h.rules + Elements(created),
         h.tunnels[name := h.tunnels[name].(owned := Some(Distinct(OwnedList(h, name) + created)))])
  }

  /** What a deploy that gets as far as the agent's own configuration has done. */
  function Applied(h: Host, name: string, ports: seq<int>, active: bool): Host {
    if active then Configured(Written(h, name, ports), name, ports) else Written(h, name, ports)
  }

  function AfterDeploy(h: Host, name: string, ports: seq<int>, active: bool, fault: Fault): Host {
    if fault.PortConflict? then
      if name in h.tunnels then h else h.(tunnels := h.tunnels[name := Directory([], None)])
    else if Fails(ports, active, fault) && !fault.SavingConfig? then h
    else Applied(h, name, ports, active)
  }

  function AfterRemove(h: Host, name: string): Host {
    Host(h.rules - Elements(OwnedList(h, name)), h.tunnels - {name})
  }

  function After(h: Host, e: Event): Host {
    match e
    case Deploy(name, ports, active, fault) => AfterDeploy(h, name, ports, active, fault)
    case Remove(name) => AfterRemove(h, name)
  }

  function Run(h: Host, events: seq<Event>): Host {
    if events == [] then h else After(Run(h, events[..|events| - 1]), events[|events| - 1])
  }

  // ---- conservation ------------------------------------------------------------------

  /** Every rule is either pre-existing or owned by exactly one tunnel. */
  ghost predicate Conserved(initial: set<int>, h: Host) {
    && (forall p :: p in h.rules <==> p in initial || exists t :: Owns(h, t, p))
    && (forall t, p :: Owns(h, t, p) ==> p !in initial)
    && (forall t, u, p :: Owns(h, t, p) && Owns(h, u, p) ==> t == u)
    && (forall t :: NoDuplicates(OwnedList(h, t)))
  }

  /** The ports that a deploy opens for the first time and that stay open. */
  predicate Opens(h: Host, ports: seq<int>, active: bool, fault: Fault, port: int) {
    && active && (fault.SavingConfig? || !Fails(ports, active, fault))
    && port in ports && port !in h.rules
  }

  lemma ConfiguredEffect(h: Host, name: string, ports: seq<int>)
    requires name in h.tunnels
    ensures var h' := Configured(h, name, ports);
      && (forall p :: p in h'.rules <==> p in h.rules || p in ports)
      && (forall p :: Owns(h', name, p) <==> Owns(h, name, p) || (p in ports && p !in h.rules))
      && (forall t :: t != name ==> OwnedList(h', t) == OwnedList(h, t))
      && NoDuplicates(OwnedList(h', name))
  {
    var created := Created(h.rules, ports);
    var list := OwnedList(h, name) + created;
    assert forall p :: p in created <==> p in Elements(created);
    assert forall p :: p in ports <==> p in Elements(ports);
    assert forall p :: p in Distinct(list) <==> p in Elements(Distinct(list));
    assert forall p :: p in list <==> p in Elements(list);
    assert OwnedList(Configured(h, name, ports), name) == Distinct(list);
  }

  lemma AppliedEffect(h: Host, name: string, ports: seq<int>, active: bool)
    ensures var h' := Applied(h, name, ports, active);
      && name in h'.tunnels && h'.tunnels[name].ports == ports
      && (forall p :: p in h'.rules <==> p in h.rules || (active && p in ports))
      && (forall p :: Owns(h', name, p) <==> Owns(h, name, p) || (active && p in ports && p !in h.rules))
      && (forall t :: t != name ==> OwnedList(h', t) == OwnedList(h, t))
      && (NoDuplicates(OwnedList(h, name)) ==> NoDuplicates(OwnedList(h', name)))
  {
    hide Created, Distinct, NoDuplicates;
    var written := Written(h, name, ports);
    assert OwnedList(written, name) == OwnedList(h, name) && written.rules == h.rules;
    if active { ConfiguredEffect(written, name, ports); }
  }

  lemma DeployEffect(h: Host, name: string, ports: seq<int>, active: bool, fault: Fault)
    ensures var h' := AfterDeploy(h, name, ports, active, fault);
      && (forall p :: p in h'.rules <==> p in h.rules || Opens(h, ports, active, fault, p))
      && (forall p :: Owns(h', name, p) <==> Owns(h, name, p) || Opens(h, ports, active, fault, p))
      && (forall t :: t != name ==> OwnedList(h', t) == OwnedList(h, t))
      && (NoDuplicates(OwnedList(h, name)) ==> NoDuplicates(OwnedList(h', name)))
  {
    hide Applied, NoDuplicates;
    AppliedEffect(h, name, ports, active);
  }

  lemma DeployConserves(initial: set<int>, h: Host, name: string, ports: seq<int>, active: bool, fault: Fault)
    requires Conserved(initial, h)
    ensures Conserved(initial, AfterDeploy(h, name, ports, active, fault))
  {
    var h' := AfterDeploy(h, name, ports, active, fault);
    DeployEffect(h, name, ports, active, fault);
    assert forall t, p :: Owns(h', t, p) <==> Owns(h, t, p) || (t == name && Opens(h, ports, active, fault, p));
    forall p ensures p in h'.rules <==> p in initial || exists t :: Owns(h', t, p) {
      if Opens(h, ports, active, fault, p) {
        assert Owns(h', name, p);
      } else if t :| Owns(h, t, p) {
        assert Owns(h', t, p);
      }
    }
  }

  lemma RemoveEffect(h: Host, name: string)
    ensures var h' := AfterRemove(h, name);
      && (forall p :: p in h'.rules <==> p in h.rules && !Owns(h, name, p))
      && (forall t :: t != name ==> OwnedList(h', t) == OwnedList(h, t))
      && OwnedList(h', name) == []
  {
  }

  lemma RemoveConserves(initial: set<int>, h: Host, name: string)
    requires Conserved(initial, h)
    ensures Conserved(initial, AfterRemove(h, name))
  {
    var h' := AfterRemove(h, name);
    RemoveEffect(h, name);
    assert forall t, p :: Owns(h', t, p) <==> Owns(h, t, p) && t != name;
    forall p ensures p in h'.rules <==> p in initial || exists t :: Owns(h', t, p) {
      if t :| Owns(h, t, p) && t != name {
        assert Owns(h', t, p);
      }
    }
  }

  /** Over every sequence of deploys, redeploys, failures and removals. */
  lemma {:induction false} RulesAreConserved(initial: set<int>, events: seq<Event>)
    ensures Conserved(initial, Run(Host(initial, map[]), events))
  {
    if events != [] {
      var rest, e := events[..|events| - 1], events[|events| - 1];
      RulesAreConserved(initial, rest);
      var h := Run(Host(initial, map[]), rest);
      match e
      case Deploy(name, ports, active, fault) => DeployConserves(initial, h, name, ports, active, fault);
      case Remove(name) => RemoveConserves(initial, h, name);
    }
  }

  function Removals(names: seq<string>): (r: seq<Event>)
    ensures |r| == |names|
  {
    seq(|names|, i requires 0 <= i < |names| => Remove(names[i]))
  }

  lemma {:induction false} RunAppend(h: Host, first: seq<Event>, second: seq<Event>)
    ensures Run(h, first + second) == Run(Run(h, first), second)
  {
    if second == [] {
      assert first + second == first;
    } else {
      var whole := first + second;
      assert whole[..|whole| - 1] == first + second[..|second| - 1];
      RunAppend(h, first, second[..|second| - 1]);
    }
  }

  lemma {:induction false} RemovalsEmpty(h: Host, names: seq<string>)
    ensures forall t :: t in Run(h, Removals(names)).tunnels <==> t in h.tunnels && t !in names
  {
    if names != [] {
      var rest, last := names[..|names| - 1], names[|names| - 1];
      assert names == rest + [last];
      assert Removals(names)[..|names| - 1] == Removals(rest);
      RemovalsEmpty(h, rest);
    }
  }

  /** Removing every tunnel, in any order, gives back the rules there were at the start. */
  lemma RemovingAllRestoresRules(initial: set<int>, events: seq<Event>, names: seq<string>)
    requires forall t :: t in Run(Host(initial, map[]), events).tunnels ==> t in names
    ensures Run(Host(initial, map[]), events + Removals(names)).rules == initial
  {
    var empty := Host(initial, map[]);
    RunAppend(empty, events, Removals(names));
    RemovalsEmpty(Run(empty, events), names);
    RulesAreConserved(initial, events + Removals(names));
    var end := Run(empty, events + Removals(names));
    assert forall t :: t !in end.tunnels;
    assert forall t, p :: !Owns(end, t, p);
    assert forall p :: p in end.rules <==> p in initial;
  }

  /** A failed deploy restores firewall and ownership, unless it failed saving the agent's own configuration
      after rules had been added: that step lies outside the rollback. */
  lemma FailedDeployRestoresExactly(h: Host, name: string, ports: seq<int>, active: bool, fault: Fault)
    requires Fails(ports, active, fault)
    ensures var h' := AfterDeploy(h, name, ports, active, fault);
      (h'.rules == h.rules && (forall t, p :: Owns(h', t, p) <==> Owns(h, t, p)))
      <==> !(fault.SavingConfig? && active && exists p :: p in ports && p !in h.rules)
  {
    var h' := AfterDeploy(h, name, ports, active, fault);
    DeployEffect(h, name, ports, active, fault);
    assert forall p :: Opens(h, ports, active, fault, p) <==>
      fault.SavingConfig? && active && p in ports && p !in h.rules;
    assert forall t, p :: Owns(h', t, p) <==> Owns(h, t, p) || (t == name && Opens(h, ports, active, fault, p));
  }

  /** What it leaves of files: nothing changed, except that a port conflict is found after a new tunnel's directory was
      made, and that before saving the Agent's configuration everything is in place. */
  lemma FailedDeployLeaves(h: Host, name: string, ports: seq<int>, active: bool, fault: Fault)
    requires Fails(ports, active, fault)
    ensures var h' := AfterDeploy(h, name, ports, active, fault);
      && (!fault.SavingConfig? && (fault.PortConflict? ==> name in h.tunnels) ==> h' == h)
      && (fault.PortConflict? && name !in h.tunnels ==>
            h'.rules == h.rules && h'.tunnels == h.tunnels[name := Directory([], None)])
      && (fault.SavingConfig? ==> name in h'.tunnels && h'.tunnels[name].ports == ports)
  {
  }

  /** A first deploy that fails saving the Agent's configuration leaves its port open and owned. */
  lemma FailedDeployCanLeaveRule(name: string, port: int)
    ensures var failed := Deploy(name, [port], true, SavingConfig);
      var h := Run(Host({}, map[]), [failed]);
      Fails(failed.ports, failed.active, failed.fault) && h.rules == {port} && Owns(h, name, port)
  {
    var h0, failed := Host({}, map[]), Deploy(name, [port], true, SavingConfig);
    assert [failed][..0] == [];
    assert Run(h0, [failed]) == After(h0, failed);
    DeployEffect(h0, name, [port], true, SavingConfig);
    assert Opens(h0, [port], true, SavingConfig, port);
    assert forall p :: Opens(h0, [port], true, SavingConfig, p) <==> p == port;
  }

  // ---- what removal does to the other tunnels ----------------------------------------

  predicate Open(h: Host, name: string) {
    name in h.tunnels && forall p :: p in h.tunnels[name].ports ==> p in h.rules
  }

  /** Removing a tunnel leaves another one open exactly when it owns none of that one's ports. */
  lemma RemovalKeepsOtherOpen(h: Host, name: string, other: string)
    requires name != other && Open(h, other)
    ensures Open(AfterRemove(h, name), other) <==> forall p :: p in h.tunnels[other].ports ==> !Owns(h, name, p)
  {
    var h' := AfterRemove(h, name);
    RemoveEffect(h, name);
    assert other in h'.tunnels && h'.tunnels[other] == h.tunnels[other];
    assert forall p :: p in h.tunnels[other].ports ==> (p in h'.rules <==> !Owns(h, name, p));
  }

  lemma SharedPortCloses(h0: Host, h1: Host, h2: Host, h3: Host, port: int, newPort: int)
    requires h0 == Host({}, map[]) && h1 == Applied(h0, "a", [port], true)
    requires h2 == Applied(h1, "a", [newPort], true) && h3 == Applied(h2, "b", [port], true)
    ensures Open(h3, "b") && !Open(AfterRemove(h3, "a"), "b")
  {
    hide Applied, AfterRemove;
    AppliedEffect(h0, "a", [port], true);
    assert Owns(h1, "a", port);
    AppliedEffect(h1, "a", [newPort], true);
    assert Owns(h2, "a", port);
    AppliedEffect(h2, "b", [port], true);
    assert OwnedList(h3, "a") == OwnedList(h2, "a") && Owns(h3, "a", port);
    RemovalKeepsOtherOpen(h3, "a", "b");
  }

  /** A redeploy keeps owning the ports it no longer uses; another tunnel that takes one of them is closed
      when the first is removed. */
  lemma RedeployCanCloseAnotherTunnel(port: int, newPort: int)
    requires port != newPort
    ensures var deployed := Run(Host({}, map[]),
        [Deploy("a", [port], true, NoFault), Deploy("a", [newPort], true, NoFault),
          Deploy("b", [port], true, NoFault)]);
      Open(deployed, "b") && !Open(AfterRemove(deployed, "a"), "b")
  {
    var d0, d1, d2 := Deploy("a", [port], true, NoFault), Deploy("a", [newPort], true, NoFault),
      Deploy("b", [port], true, NoFault);
    var h0 := Host({}, map[]);
    var h1 := Applied(h0, "a", [port], true);
    var h2 := Applied(h1, "a", [newPort], true);
    var h3 := Applied(h2, "b", [port], true);
    hide Applied, AfterRemove, Open;
    assert [d0][..0] == [] && [d0, d1][..1] == [d0] && [d0, d1, d2][..2] == [d0, d1];
    assert Run(h0, [d0]) == h1;
    assert Run(h0, [d0, d1]) == h2;
    assert Run(h0, [d0, d1, d2]) == h3;
    SharedPortCloses(h0, h1, h2, h3, port, newPort);
  }

  lemma CreatedNext(rules: set<int>, ports: seq<int>, i: nat)
    requires i < |ports|
    ensures var created, port := Created(rules, ports[..i]), ports[i];
      && Created(rules, ports[..i + 1]) == (if port in rules + Elements(created) then created else created + [port])
      && rules + Elements(Created(rules, ports[..i + 1])) == rules + Elements(created) + {port}
  {
    var first := ports[..i + 1];
    assert first[..i] == ports[..i] && first[|first| - 1] == ports[i];
    assert forall x :: x in Created(rules, ports[..i]) <==> x in Elements(Created(rules, ports[..i]));
    assert Elements(first) == Elements(ports[..i]) + {ports[i]} by { assert first == ports[..i] + [ports[i]]; }
  }

  /** Deleting the rules a configuration created gives back the rules there were before. */
  lemma CreatedIsNew(rules: set<int>, ports: seq<int>)
    ensures rules + Elements(Created(rules, ports)) - Elements(Created(rules, ports)) == rules
  {
  }

  lemma DirectoryCanBePutBack(before: map<string, Directory>, now: map<string, Directory>, name: string)
    requires now - {name} == before - {name}
    ensures if name in before then now[name := before[name]] == before else now - {name} == before
  {
    assert forall t :: t != name ==> (t in now <==> t in now - {name}) && (t in before <==> t in before - {name});
    assert forall t :: t in before && t != name ==>
      before[t] == (before - {name})[t] && t in now && now[t] == (now - {name})[t];
  }

  // ---- the agent ---------------------------------------------------------------------

  class Agent {
    var rules: set<int>
    var tunnels: map<string, Directory>

    ghost function View(): Host
      reads this
    {
      Host(rules, tunnels)
    }

    constructor (rules: set<int>)
      ensures View() == Host(rules, map[])
    {
      this.rules, tunnels := rules, map[];
    }

    /** ufw allow: reports "Rule added" for a new rule only. */
    method Allow(port: int) returns (added: bool)
      modifies this`rules
      ensures rules == old(rules) + {port} && added == (port !in old(rules))
    {
      added := port !in rules;
      rules := rules + {port};
    }

    /** _remove_ufw_rules */
    method RemoveRules(list: seq<int>)
      modifies this`rules
      ensures rules == old(rules) - Elements(list)
    {
      var i := 0;
      while i < |list|
        invariant i <= |list| && rules == old(rules) - Elements(list[..i])
      {
        assert list[..i + 1] == list[..i] + [list[i]];
        assert Elements(list[..i + 1]) == Elements(list[..i]) + {list[i]};
        rules := rules - {list[i]};
        i := i + 1;
      }
      assert list[..|list|] == list;
    }

    /** The loop of _configure_ufw: allows the ports in order, and takes back what it added if one of them fails. */
    method AllowAll(ports: seq<int>, fault: Fault) returns (ok: bool, created: seq<int>)
      modifies this`rules
      ensures ok == !(fault.Allowing? && fault.k < |ports|)
      ensures ok ==> created == Created(old(rules), ports)
      ensures rules == (if ok then old(rules) + Elements(created) else old(rules))
    {
      assert Created(rules, ports[..0]) == [] && Elements([]) == {};
      hide Created;
      created := [];
      var i := 0;
      while i < |ports|
        invariant i <= |ports| && created == Created(old(rules), ports[..i])
        invariant rules == old(rules) + Elements(created)
        invariant fault.Allowing? ==> i <= fault.k
      {
        if fault.Allowing? && fault.k == i {
          CreatedIsNew(old(rules), ports[..i]);
          RemoveRules(created);
          return false, [];
        }
        CreatedNext(old(rules), ports, i);
        var added := Allow(ports[i]);
        if added { created := created + [ports[i]]; }
        i := i + 1;
      }
      assert ports[..|ports|] == ports;
      ok := true;
    }

    /** _configure_ufw: either every port is open and recorded where it was new, or nothing has changed. */
    method ConfigureUfw(name: string, ports: seq<int>, active: bool, fault: Fault) returns (ok: bool, created: seq<int>)
      requires name in tunnels
      modifies this
      ensures ok == !ConfigureFails(ports, active, fault)
      ensures created == (if ok && active then Created(old(rules), ports) else [])
      ensures View() == (if ok && active then Configured(old(View()), name, ports) else old(View()))
    {
      if !active { return true, []; }
      var previous := if tunnels[name].owned.Some? then tunnels[name].owned.value else [];
      CreatedIsNew(rules, ports);
      ok, created := AllowAll(ports, fault);
      if !ok { return false, []; }
      if fault.WritingOwnership? {
        RemoveRules(created);
        return false, [];
      }
      tunnels := tunnels[name := tunnels[name].(owned := Some(Distinct(previous + created)))];
    }

    /** The guarded part of deploy: on failure it reports the rules it leaves behind. */
    method Apply(name: string, ports: seq<int>, active: bool, fault: Fault) returns (ok: bool, created: seq<int>)
      requires name in tunnels
      modifies this
      ensures ok == !(fault.WritingFiles? || ConfigureFails(ports, active, fault) || fault.Starting?)
      ensures ok ==> View() == Applied(old(View()), name, ports, active)
      ensures !ok ==> rules - Elements(created) == old(rules) && tunnels - {name} == old(tunnels) - {name}
    {
      if fault.WritingFiles? { return false, []; }
      tunnels := tunnels[name := tunnels[name].(ports := ports)];
      assert View() == Written(old(View()), name, ports);
      ok, created := ConfigureUfw(name, ports, active, fault);
      CreatedIsNew(old(rules), ports);
      ok := ok && !fault.Starting?;
    }

    /** deploy: what follows the first file is rolled back, except the last step. */
    method DeployTunnel(name: string, ports: seq<int>, active: bool, fault: Fault) returns (ok: bool)
      modifies this
      ensures ok == !Fails(ports, active, fault)
      ensures View() == AfterDeploy(old(View()), name, ports, active, fault)
    {
      if fault.Installing? { return false; }
      var existed, backup := name in tunnels, Directory([], None);
      if existed {
        backup := tunnels[name];
      } else {
        tunnels := tunnels[name := backup];
      }
      if fault.PortConflict? { return false; }
      assert Written(View(), name, ports) == Written(old(View()), name, ports);
      var applied, created := Apply(name, ports, active, fault);
      if !applied {
        RemoveRules(created);
        DirectoryCanBePutBack(old(tunnels), tunnels, name);
        tunnels := if existed then tunnels[name := backup] else tunnels - {name};
        return false;
      }
      ok := !fault.SavingConfig?;
    }

    /** remove */
    method RemoveTunnel(name: string)
      modifies this
      ensures View() == AfterRemove(old(View()), name)
    {
      if name in tunnels && tunnels[name].owned.Some? {
        RemoveRules(tunnels[name].owned.value);
      }
      tunnels := tunnels - {name};
    }
  }
}
