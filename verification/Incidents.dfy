/** Incidents and their timeline. */
module Incidents {
  import opened Common

  datatype Status = Open | Acknowledged | Resolved

  /** event_type; Remark stands for note, diagnostic and action. */
  datatype Kind = Detected | Acked | Closed | Reopened | Remark

  datatype Incident = Incident(tunnel: Option<nat>, status: Status, resolvedAt: Option<int>) {
    predicate Active() { !status.Resolved? }
  }

  datatype Entry = Entry(incident: nat, kind: Kind, at: int)

  /** The two tables; rows are in the order of their ids. */
  datatype Book = Book(incidents: seq<Incident>, log: seq<Entry>)

  /** Detect: a handler that has looked for an active incident of the tunnel first. Resolve: recovery or operator. */
  datatype Step =
    | Detect(tunnel: Option<nat>, now: int)
    | Resolve(id: nat, now: int)
    | AddNote(id: nat, now: int)
    | Acknowledge(id: nat, now: int)
    | Reopen(id: nat, now: int)
    | TunnelDeleted(tunnelId: nat)

  predicate HasActive(incidents: seq<Incident>, tunnel: nat) {
    exists i :: 0 <= i < |incidents| && incidents[i].tunnel == Some(tunnel) && incidents[i].Active()
  }

  function Changed(b: Book, id: nat, row: Incident, kind: Kind, now: int): Book
    requires id < |b.incidents|
  {
    Book(b.incidents[id := row], b.log + [Entry(id, kind, now)])
  }

  function After(b: Book, s: Step): Book {
    match s
    case Detect(tunnel, now) =>
      if tunnel.Some? && HasActive(b.incidents, tunnel.value) then b
      else Book(b.incidents + [Incident(tunnel, Open, None)], b.log + [Entry(|b.incidents|, Detected, now)])
    case Resolve(id, now) =>
      if id < |b.incidents| && b.incidents[id].Active() then
        Changed(b, id, b.incidents[id].(status := Resolved, resolvedAt := Some(now)), Closed, now)
      else b
    case AddNote(id, now) => if id < |b.incidents| then b.(log := b.log + [Entry(id, Remark, now)]) else b
    case Acknowledge(id, now) =>
      if id < |b.incidents| && b.incidents[id].status.Open? then
        Changed(b, id, b.incidents[id].(status := Acknowledged), Acked, now)
      else b
    case Reopen(id, now) =>
      if id < |b.incidents| && b.incidents[id].status.Resolved? then
        Changed(b, id, b.incidents[id].(status := Open, resolvedAt := None), Reopened, now)
      else b
    case TunnelDeleted(t) => b.(incidents := Unlinked(b.incidents, t))
  }

  /** A deleted tunnel is cleared from its incidents. */
  function Unlinked(incidents: seq<Incident>, tunnel: nat): (r: seq<Incident>)
    ensures |r| == |incidents|
  {
    seq(|incidents|, i requires 0 <= i < |incidents| =>
      if incidents[i].tunnel == Some(tunnel) then incidents[i].(tunnel := None) else incidents[i])
  }

  function Run(steps: seq<Step>): Book {
    if steps == [] then Book([], []) else After(Run(steps[..|steps| - 1]), steps[|steps| - 1])
  }

  // ---- reading the timeline ----------------------------------------------------------

  /** What a timeline says about one incident. */
  datatype Reading = Reading(status: Status, at: int)

  function Meaning(kind: Kind): Status
    requires !kind.Remark?
  {
    match kind
    case Detected => Open
    case Acked => Acknowledged
    case Closed => Resolved
    case Reopened => Open
  }

  /** The last entry of the incident that is not a remark decides. */
  function Read(log: seq<Entry>, id: nat): Option<Reading> {
    if log == [] then None
    else
      var last := log[|log| - 1];
      if last.incident == id && !last.kind.Remark? then Some(Reading(Meaning(last.kind), last.at))
      else Read(log[..|log| - 1], id)
  }

  /** Whether an entry may follow a timeline that reads `before` for its incident. */
  predicate Follows(before: Option<Reading>, kind: Kind) {
    match kind
    case Detected => before.None?
    case Acked => before.Some? && before.value.status.Open?
    case Closed => before.Some? && !before.value.status.Resolved?
    case Reopened => before.Some? && before.value.status.Resolved?
    case Remark => before.Some?
  }

  /** Every entry follows from what was written before it. */
  predicate Coherent(log: seq<Entry>) {
    forall i :: 0 <= i < |log| ==> Follows(Read(log[..i], log[i].incident), log[i].kind)
  }

  /** The timeline gives the row: its status, and the time it was resolved exactly while it is. */
  predicate Explains(log: seq<Entry>, id: nat, row: Incident) {
    var r := Read(log, id);
    r.Some? && r.value.status == row.status &&
      row.resolvedAt == (if r.value.status.Resolved? then Some(r.value.at) else None)
  }

  ghost predicate Inv(b: Book) {
    && (forall i :: 0 <= i < |b.incidents| ==> Explains(b.log, i, b.incidents[i]))
    && (forall i :: i >= |b.incidents| ==> Read(b.log, i) == None)
    && Coherent(b.log)
  }

  lemma ReadAppend(log: seq<Entry>, e: Entry, id: nat)
    ensures Read(log + [e], id) ==
      if e.incident == id && !e.kind.Remark? then Some(Reading(Meaning(e.kind), e.at)) else Read(log, id)
  {
    assert (log + [e])[..|log|] == log;
  }

  lemma CoherentAppend(log: seq<Entry>, e: Entry)
    requires Coherent(log) && Follows(Read(log, e.incident), e.kind)
    ensures Coherent(log + [e])
  {
    var longer := log + [e];
    forall i | 0 <= i < |longer| ensures Follows(Read(longer[..i], longer[i].incident), longer[i].kind) {
      assert longer[..i] == if i < |log| then log[..i] else log;
    }
  }

  /** A row and its entry change together. */
  lemma ChangedKeepsInv(b: Book, id: nat, row: Incident, kind: Kind, now: int)
    requires Inv(b) && id < |b.incidents| && !kind.Remark? && Follows(Read(b.log, id), kind)
    requires row.status == Meaning(kind) && row.resolvedAt == if row.status.Resolved? then Some(now) else None
    ensures Inv(Changed(b, id, row, kind, now))
  {
    var e := Entry(id, kind, now);
    CoherentAppend(b.log, e);
    forall i: nat ensures Read(b.log + [e], i) ==
      if i == id then Some(Reading(Meaning(kind), now)) else Read(b.log, i) {
      ReadAppend(b.log, e, i);
    }
  }

  lemma CreatedKeepsInv(b: Book, tunnel: Option<nat>, now: int)
    requires Inv(b)
    ensures Inv(Book(b.incidents + [Incident(tunnel, Open, None)], b.log + [Entry(|b.incidents|, Detected, now)]))
  {
    var e := Entry(|b.incidents|, Detected, now);
    CoherentAppend(b.log, e);
    forall i: nat ensures Read(b.log + [e], i) ==
      if i == |b.incidents| then Some(Reading(Open, now)) else Read(b.log, i) {
      ReadAppend(b.log, e, i);
    }
  }

  lemma NoteKeepsInv(b: Book, id: nat, now: int)
    requires Inv(b) && id < |b.incidents|
    ensures Inv(b.(log := b.log + [Entry(id, Remark, now)]))
  {
    var e := Entry(id, Remark, now);
    assert Explains(b.log, id, b.incidents[id]);
    CoherentAppend(b.log, e);
    forall i: nat ensures Read(b.log + [e], i) == Read(b.log, i) { ReadAppend(b.log, e, i); }
  }

  lemma UnlinkKeepsInv(b: Book, tunnel: nat)
    requires Inv(b)
    ensures Inv(b.(incidents := Unlinked(b.incidents, tunnel)))
  {
    forall i | 0 <= i < |b.incidents| ensures Explains(b.log, i, Unlinked(b.incidents, tunnel)[i]) {
      assert Explains(b.log, i, b.incidents[i]);
    }
  }

  lemma RowExplained(b: Book, id: nat)
    requires Inv(b) && id < |b.incidents|
    ensures Read(b.log, id).Some? && Read(b.log, id).value.status == b.incidents[id].status
    ensures b.incidents[id].resolvedAt.Some? <==> b.incidents[id].status.Resolved?
  {
    assert Explains(b.log, id, b.incidents[id]);
  }

  /** What a step makes of the row of incident `id`. */
  predicate Becomes(was: Incident, s: Step, id: nat, now: Incident) {
    match s
    case Acknowledge(i, _) => now == if i == id && was.status.Open? then was.(status := Acknowledged) else was
    case Resolve(i, at) =>
      now == if i == id && !was.status.Resolved? then Incident(was.tunnel, Resolved, Some(at)) else was
    case Reopen(i, _) => now == if i == id && was.status.Resolved? then Incident(was.tunnel, Open, None) else was
    case TunnelDeleted(t) => now == if was.tunnel == Some(t) then was.(tunnel := None) else was
    case _ => now == was
  }

  /** Row by row: a step changes only the incident it names, a detection adds one where none is active, and a note is
      kept. */
  lemma StepMeans(b: Book, s: Step)
    ensures var next := After(b, s);
      && |b.incidents| <= |next.incidents|
      && (forall id :: 0 <= id < |b.incidents| ==> Becomes(b.incidents[id], s, id, next.incidents[id]))
      && (s.Detect? ==>
            var known := s.tunnel.Some? && exists i :: 0 <= i < |b.incidents| && Active(b.incidents[i], s.tunnel.value);
            next.incidents == b.incidents + (if known then [] else [Incident(s.tunnel, Open, None)]))
      && (s.AddNote? && s.id < |b.incidents| ==> next.log == b.log + [Entry(s.id, Remark, s.now)])
  {
    if s.Detect? && s.tunnel.Some? {
      forall i | 0 <= i < |b.incidents|
        ensures Active(b.incidents[i], s.tunnel.value) <==>
          b.incidents[i].tunnel == s.tunnel && b.incidents[i].Active() {}
    }
  }

  predicate Active(row: Incident, tunnel: nat) { row.tunnel == Some(tunnel) && row.status in {Open, Acknowledged} }

  lemma StepKeepsInv(b: Book, s: Step)
    requires Inv(b)
    ensures Inv(After(b, s))
  {
    hide Inv, Read, Unlinked;
    if s.Detect? {
      CreatedKeepsInv(b, s.tunnel, s.now);
    } else if s.TunnelDeleted? {
      UnlinkKeepsInv(b, s.tunnelId);
    } else if s.id < |b.incidents| {
      var row := b.incidents[s.id];
      RowExplained(b, s.id);
      if s.AddNote? {
        NoteKeepsInv(b, s.id, s.now);
      } else if s.Resolve? && row.Active() {
        ChangedKeepsInv(b, s.id, row.(status := Resolved, resolvedAt := Some(s.now)), Closed, s.now);
      } else if s.Acknowledge? && row.status.Open? {
        ChangedKeepsInv(b, s.id, row.(status := Acknowledged), Acked, s.now);
      } else if s.Reopen? && row.status.Resolved? {
        ChangedKeepsInv(b, s.id, row.(status := Open, resolvedAt := None), Reopened, s.now);
      }
    }
  }

  /** After any mix of detection, recovery, notes and operator actions the timeline explains every row. */
  lemma {:induction false} TimelineExplainsRows(steps: seq<Step>)
    ensures Inv(Run(steps))
  {
    if steps != [] {
      TimelineExplainsRows(steps[..|steps| - 1]);
      StepKeepsInv(Run(steps[..|steps| - 1]), steps[|steps| - 1]);
    }
  }

  predicate ReopenedBetween(log: seq<Entry>, id: nat, i: nat, j: nat)
    requires j <= |log|
  {
    exists k :: i < k < j && log[k] == Entry(id, Reopened, log[k].at)
  }

  lemma NextFollows(log: seq<Entry>, k: nat)
    requires Coherent(log) && k < |log|
    ensures Follows(Read(log[..k], log[k].incident), log[k].kind)
  {
  }

  lemma ReadNext(log: seq<Entry>, id: nat, k: nat)
    requires k < |log|
    ensures Read(log[..k + 1], id) ==
      if log[k].incident == id && !log[k].kind.Remark? then Some(Reading(Meaning(log[k].kind), log[k].at))
      else Read(log[..k], id)
  {
    assert log[..k + 1][..k] == log[..k];
  }

  predicate ReadsResolved(log: seq<Entry>, id: nat) { Read(log, id).Some? && Read(log, id).value.status.Resolved? }

  lemma ResolvedNext(log: seq<Entry>, id: nat, k: nat)
    requires k < |log| && Follows(Read(log[..k], log[k].incident), log[k].kind)
    requires log[k].incident == id ==> !log[k].kind.Reopened?
    requires ReadsResolved(log[..k], id) || (log[k].incident == id && log[k].kind.Closed?)
    ensures ReadsResolved(log[..k + 1], id)
  {
    ReadNext(log, id, k);
    hide Read;
  }

  /** Without a reopen an incident stays resolved. */
  lemma {:induction false} StaysResolved(log: seq<Entry>, i: nat, j: nat)
    requires Coherent(log) && i < j <= |log| && log[i].kind.Closed? && !ReopenedBetween(log, log[i].incident, i, j)
    ensures ReadsResolved(log[..j], log[i].incident)
  {
    var id, last := log[i].incident, log[j - 1];
    NextFollows(log, j - 1);
    hide Coherent, Read, Follows, ReadsResolved;
    if i < j - 1 {
      assert last.incident == id ==> !last.kind.Reopened?;
      assert !ReopenedBetween(log, id, i, j - 1);
      StaysResolved(log, i, j - 1);
    }
    ResolvedNext(log, id, j - 1);
  }

  /** Between two resolved entries of one incident there is a reopened one. */
  lemma ReopenBetweenResolutions(steps: seq<Step>, i: nat, j: nat)
    requires var log := Run(steps).log;
      i < j < |log| && log[i].kind.Closed? && log[j].kind.Closed? && log[i].incident == log[j].incident
    ensures ReopenedBetween(Run(steps).log, Run(steps).log[i].incident, i, j)
  {
    var log := Run(steps).log;
    TimelineExplainsRows(steps);
    assert Follows(Read(log[..j], log[j].incident), log[j].kind);
    if !ReopenedBetween(log, log[i].incident, i, j) { StaysResolved(log, i, j); }
  }

  // ---- one active incident per tunnel ------------------------------------------------

  ghost predicate OneActive(incidents: seq<Incident>) {
    forall i, j :: 0 <= i < j < |incidents| && incidents[i].Active() && incidents[j].Active() ==>
      incidents[i].tunnel.None? || incidents[i].tunnel != incidents[j].tunnel
  }

  /** The incident is resolved and its tunnel has another active one. */
  predicate Doubles(b: Book, id: nat) {
    id < |b.incidents| && b.incidents[id].status.Resolved? && b.incidents[id].tunnel.Some? &&
    HasActive(b.incidents, b.incidents[id].tunnel.value)
  }

  /** The operator's reopen keeps one active incident per tunnel exactly when the tunnel has none. */
  lemma ReopenKeepsOneActiveExactly(b: Book, id: nat, now: int)
    requires OneActive(b.incidents)
    ensures OneActive(After(b, Reopen(id, now)).incidents) <==> !Doubles(b, id)
  {
    var after := After(b, Reopen(id, now)).incidents;
    if Doubles(b, id) {
      var k :| 0 <= k < |b.incidents| && b.incidents[k].tunnel == b.incidents[id].tunnel && b.incidents[k].Active();
      assert after[k].Active() && after[id].Active() && after[k].tunnel == after[id].tunnel;
    }
  }

  /** No other step gives a tunnel a second active incident. */
  lemma OtherStepsKeepOneActive(b: Book, s: Step)
    requires OneActive(b.incidents) && !s.Reopen?
    ensures OneActive(After(b, s).incidents)
  {
  }

  ghost predicate NeverDoubles(steps: seq<Step>) {
    forall i :: 0 <= i < |steps| && steps[i].Reopen? ==> !Doubles(Run(steps[..i]), steps[i].id)
  }

  lemma {:induction false} OneActiveOverRuns(steps: seq<Step>)
    requires NeverDoubles(steps)
    ensures OneActive(Run(steps).incidents)
  {
    if steps != [] {
      var rest, s := steps[..|steps| - 1], steps[|steps| - 1];
      assert forall i :: 0 <= i < |rest| ==> rest[..i] == steps[..i];
      OneActiveOverRuns(rest);
      if s.Reopen? {
        ReopenKeepsOneActiveExactly(Run(rest), s.id, s.now);
      } else {
        OtherStepsKeepOneActive(Run(rest), s);
      }
    }
  }

  /** Detect, recover, detect again, reopen the first. */
  lemma ReopenCanDouble(tunnel: nat)
    ensures !OneActive(Run([Detect(Some(tunnel), 0), Resolve(0, 1), Detect(Some(tunnel), 2), Reopen(0, 3)]).incidents)
  {
    var s := [Detect(Some(tunnel), 0), Resolve(0, 1), Detect(Some(tunnel), 2), Reopen(0, 3)];
    assert s[..3][..2] == s[..2] && s[..2][..1] == s[..1] && s[..1][..0] == [];
    assert Run(s[..1]).incidents == [Incident(Some(tunnel), Open, None)];
    assert Run(s[..2]).incidents == [Incident(Some(tunnel), Resolved, Some(1))];
    assert Run(s[..3]).incidents == [Incident(Some(tunnel), Resolved, Some(1)), Incident(Some(tunnel), Open, None)];
    assert Doubles(Run(s[..3]), 0) by { assert Run(s[..3]).incidents[1].Active(); }
    ReopenKeepsOneActiveExactly(Run(s[..3]), 0, 3);
  }

  datatype Action = DoAcknowledge | DoResolve | DoReopen

  class IncidentTables {
    var incidents: seq<Incident>
    var log: seq<Entry>

    ghost function View(): Book
      reads this
    {
      Book(incidents, log)
    }

    constructor ()
      ensures View() == Book([], [])
    {
      incidents, log := [], [];
    }

    /** append_incident_event */
    method Append(id: nat, kind: Kind, now: int)
      modifies this`log
      ensures log == old(log) + [Entry(id, kind, now)]
    {
      log := log + [Entry(id, kind, now)];
    }

    /** create_incident, after the look-up its callers make. */
    method Create(tunnel: Option<nat>, now: int)
      modifies this
      ensures View() == After(old(View()), Detect(tunnel, now))
    {
      if tunnel.Some? {
        var i := 0;
        while i < |incidents|
          invariant i <= |incidents| && View() == old(View())
          invariant forall k :: 0 <= k < i ==> !(incidents[k].tunnel == tunnel && incidents[k].Active())
        {
          if incidents[i].tunnel == tunnel && incidents[i].Active() { return; }
          i := i + 1;
        }
      }
      incidents := incidents + [Incident(tunnel, Open, None)];
      Append(|incidents| - 1, Detected, now);
    }

    /** resolve_incident: the UPDATE and, if it changed a row, the entry. */
    method ResolveIncident(id: nat, now: int) returns (changed: bool)
      modifies this
      ensures View() == After(old(View()), Resolve(id, now))
      ensures changed == (id < |old(incidents)| && old(incidents)[id].Active())
    {
      changed := id < |incidents| && incidents[id].Active();
      if changed {
        incidents := incidents[id := incidents[id].(status := Resolved, resolvedAt := Some(now))];
        Append(id, Closed, now);
      }
    }

    /** incident_action_mutation */
    method Act(id: nat, action: Action, now: int) returns (ok: bool)
      modifies this
      ensures View() == match action {
        case DoAcknowledge => After(old(View()), Acknowledge(id, now))
        case DoResolve => After(old(View()), Resolve(id, now))
        case DoReopen => After(old(View()), Reopen(id, now))
      }
      ensures !ok <==> View() == old(View())
    {
      if id >= |incidents| { return false; }
      var row := incidents[id];
      if action == DoAcknowledge {
        if row.status != Open { return false; }
        incidents := incidents[id := row.(status := Acknowledged)];
        Append(id, Acked, now);
      } else if action == DoResolve {
        if row.status == Resolved { return false; }
        var changed := ResolveIncident(id, now);
      } else {
        if row.status != Resolved { return false; }
        incidents := incidents[id := row.(status := Open, resolvedAt := None)];
        Append(id, Reopened, now);
      }
      return true;
    }

    /** add_incident_note_mutation */
    method AddIncidentNote(id: nat, now: int) returns (ok: bool)
      modifies this
      ensures View() == After(old(View()), AddNote(id, now)) && ok == (id < |old(incidents)|)
    {
      ok := id < |incidents|;
      if ok { Append(id, Remark, now); }
    }
  }
}
