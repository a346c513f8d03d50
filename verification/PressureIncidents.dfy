/** The alarms of `Pressure` are the active incidents of the tables of `Incidents` that bear a resource's title, over
    every run of one node's heartbeats and of all other steps on the tables. */
module PressureIncidents {
  import opened Common
  import P = Pressure
  import I = Incidents

  /** `about`: the resource whose title the incident of that id bears, if it is a pressure incident of this node. */
  datatype Board = Board(book: I.Book, about: seq<Option<nat>>)

  /** A heartbeat, or what an operator or another handler does to the tables. */
  datatype Event = Beat(reading: P.Reading, now: int) | Other(step: I.Step)

  predicate Concerns(b: Board, i: nat, resource: nat)
    requires |b.about| == |b.book.incidents|
  {
    i < |b.about| && b.about[i] == Some(resource) && b.book.incidents[i].Active()
  }

  predicate WellFormed(b: Board) {
    && |b.about| == |b.book.incidents|
    && forall i :: 0 <= i < |b.about| && b.about[i].Some? ==>
         b.about[i].value < |P.LIMITS| && b.book.incidents[i].tunnel.None?
  }

  /** The look-up by title. */
  function FirstActive(b: Board, resource: nat, from: nat := 0): (r: Option<nat>)
    requires WellFormed(b) && from <= |b.about|
    ensures r.Some? ==> from <= r.value && Concerns(b, r.value, resource)
    ensures r.None? ==> forall i :: from <= i < |b.about| ==> !Concerns(b, i, resource)
    decreases |b.about| - from
  {
    if from == |b.about| then None
    else if Concerns(b, from, resource) then Some(from)
    else FirstActive(b, resource, from + 1)
  }

  /** One turn of the loop over the limits. */
  function Checked(b: Board, resource: nat, value: Option<real>, now: int): Board
    requires WellFormed(b) && resource < |P.LIMITS|
  {
    var limit, found := P.LIMITS[resource], FirstActive(b, resource);
    if value.None? then b
    else if value.value >= limit && found.None? then
      Board(I.After(b.book, I.Detect(None, now)), b.about + [Some(resource)])
    else if value.value < limit * 0.9 && found.Some? then b.(book := I.After(b.book, I.Resolve(found.value, now)))
    else b
  }

  /** The first `upTo` turns. */
  function Swept(b: Board, reading: P.Reading, now: int, upTo: nat): (r: Board)
    requires WellFormed(b) && upTo <= |P.LIMITS|
    ensures WellFormed(r)
  {
    if upTo == 0 then b else Checked(Swept(b, reading, now, upTo - 1), upTo - 1, reading[upTo - 1], now)
  }

  function After(b: Board, e: Event): (r: Board)
    requires WellFormed(b)
    ensures WellFormed(r)
  {
    match e
    case Beat(reading, now) => Swept(b, reading, now, |P.LIMITS|)
    case Other(step) =>
      var book := I.After(b.book, step);
      Board(book, b.about + seq(|book.incidents| - |b.book.incidents|, i => None))
  }

  /** What the other steps do to the alarms: a resolution of an alarm's incident ends it, a reopen brings it back. */
  function Touched(b: Board, alarms: P.Alarms, step: I.Step): P.Alarms
    requires WellFormed(b)
  {
    match step
    case Resolve(id, _) =>
      if id < |b.about| && b.about[id].Some? && b.book.incidents[id].Active() then alarms[b.about[id].value := false]
      else alarms
    case Reopen(id, _) =>
      if id < |b.about| && b.about[id].Some? && b.book.incidents[id].status.Resolved? then
        alarms[b.about[id].value := true]
      else alarms
    case _ => alarms
  }

  function NextAlarms(b: Board, alarms: P.Alarms, e: Event): P.Alarms
    requires WellFormed(b)
  {
    match e
    case Beat(reading, _) => P.After(alarms, reading)
    case Other(step) => Touched(b, alarms, step)
  }

  /** A reopen, by hand, of a resolved pressure incident whose resource has another active one. */
  predicate Doubles(b: Board, e: Event)
    requires WellFormed(b)
  {
    && e.Other? && e.step.Reopen? && e.step.id < |b.about| && b.about[e.step.id].Some?
    && !b.book.incidents[e.step.id].Active() && FirstActive(b, b.about[e.step.id].value).Some?
  }

  // ---- one active incident per alarm ---------------------------------------------------

  predicate AtMostOne(b: Board, resource: nat)
    requires WellFormed(b)
  {
    forall i, j :: 0 <= i < j < |b.about| ==> !(Concerns(b, i, resource) && Concerns(b, j, resource))
  }

  predicate Told(b: Board, resource: nat, alarm: bool)
    requires WellFormed(b)
  {
    AtMostOne(b, resource) && (alarm <==> exists i :: 0 <= i < |b.about| && Concerns(b, i, resource))
  }

  lemma OpeningTells(b: Board, resource: nat, now: int)
    requires WellFormed(b) && resource < |P.LIMITS| && FirstActive(b, resource).None?
    ensures var after := Board(I.After(b.book, I.Detect(None, now)), b.about + [Some(resource)]);
      WellFormed(after) && Told(after, resource, true)
  {
    var after := Board(I.After(b.book, I.Detect(None, now)), b.about + [Some(resource)]);
    forall i | 0 <= i < |b.about| ensures !Concerns(after, i, resource) { assert !Concerns(b, i, resource); }
    assert Concerns(after, |b.about|, resource);
  }

  lemma ClosingTells(b: Board, resource: nat, id: nat, now: int)
    requires WellFormed(b) && resource < |P.LIMITS| && AtMostOne(b, resource) && Concerns(b, id, resource)
    ensures var after := b.(book := I.After(b.book, I.Resolve(id, now)));
      WellFormed(after) && Told(after, resource, false)
  {
    var after := b.(book := I.After(b.book, I.Resolve(id, now)));
    forall i | 0 <= i < |b.about| ensures !Concerns(after, i, resource) {
      if i != id { assert Concerns(after, i, resource) <==> Concerns(b, i, resource); }
    }
  }

  lemma CheckTells(b: Board, resource: nat, value: Option<real>, now: int, alarm: bool)
    requires WellFormed(b) && resource < |P.LIMITS| && Told(b, resource, alarm)
    ensures WellFormed(Checked(b, resource, value, now))
    ensures Told(Checked(b, resource, value, now), resource, P.Next(alarm, value, P.LIMITS[resource]))
  {
    var found := FirstActive(b, resource);
    assert alarm <==> found.Some?;
    assert P.LIMITS[resource] > 0.0;
    if found.None? { OpeningTells(b, resource, now); } else { ClosingTells(b, resource, found.value, now); }
  }

  lemma CheckLeavesOthers(b: Board, resource: nat, value: Option<real>, now: int, other: nat, alarm: bool)
    requires WellFormed(b) && resource < |P.LIMITS| && other != resource && Told(b, other, alarm)
    ensures WellFormed(Checked(b, resource, value, now)) && Told(Checked(b, resource, value, now), other, alarm)
  {
    var after := Checked(b, resource, value, now);
    forall i | 0 <= i < |b.about| ensures Concerns(after, i, other) <==> Concerns(b, i, other) {}
  }

  lemma {:induction false} SweepTells(b: Board, reading: P.Reading, now: int, upTo: nat, resource: nat, alarm: bool)
    requires WellFormed(b) && upTo <= |P.LIMITS| && resource < |P.LIMITS| && Told(b, resource, alarm)
    ensures Told(Swept(b, reading, now, upTo), resource,
                 if resource < upTo then P.Next(alarm, reading[resource], P.LIMITS[resource]) else alarm)
  {
    if upTo > 0 {
      var before := Swept(b, reading, now, upTo - 1);
      SweepTells(b, reading, now, upTo - 1, resource, alarm);
      hide Told, Checked, P.Next;
      if resource == upTo - 1 {
        CheckTells(before, resource, reading[resource], now, alarm);
      } else {
        CheckLeavesOthers(before, upTo - 1, reading[upTo - 1], now, resource,
                          if resource < upTo then P.Next(alarm, reading[resource], P.LIMITS[resource]) else alarm);
      }
    }
  }

  lemma ReopeningTells(b: Board, resource: nat, id: nat, now: int)
    requires WellFormed(b) && resource < |P.LIMITS| && FirstActive(b, resource).None?
    requires id < |b.about| && b.about[id] == Some(resource)
    ensures var after := After(b, Other(I.Reopen(id, now))); Told(after, resource, true)
  {
    var after := After(b, Other(I.Reopen(id, now)));
    forall i | 0 <= i < |b.about| && i != id ensures !Concerns(after, i, resource) {
      assert !Concerns(b, i, resource);
    }
    assert !Concerns(b, id, resource);
    assert Concerns(after, id, resource);
  }

  /** A step that concerns no pressure incident of the resource. */
  lemma OtherStepsTell(b: Board, step: I.Step, resource: nat, alarm: bool)
    requires WellFormed(b) && resource < |P.LIMITS| && Told(b, resource, alarm)
    requires (step.Resolve? || step.Reopen?) && step.id < |b.about| ==> b.about[step.id] != Some(resource)
    ensures Told(After(b, Other(step)), resource, alarm)
  {
    var after := After(b, Other(step));
    forall i | 0 <= i < |after.about| ensures Concerns(after, i, resource) <==> Concerns(b, i, resource) {}
  }

  /** A step by hand keeps one incident per alarm of the resource exactly when it is no doubling reopen. */
  lemma StepTellsExactly(b: Board, step: I.Step, alarms: P.Alarms, resource: nat)
    requires WellFormed(b) && resource < |P.LIMITS| && Told(b, resource, alarms[resource])
    ensures Told(After(b, Other(step)), resource, Touched(b, alarms, step)[resource]) <==>
      !(Doubles(b, Other(step)) && b.about[step.id] == Some(resource))
  {
    if (step.Resolve? || step.Reopen?) && step.id < |b.about| && b.about[step.id] == Some(resource) {
      assert After(b, Other(step)) == b.(book := I.After(b.book, step));
      if step.Resolve? {
        if b.book.incidents[step.id].Active() { ClosingTells(b, resource, step.id, step.now); }
      } else if FirstActive(b, resource).None? {
        assert !Concerns(b, step.id, resource);
        ReopeningTells(b, resource, step.id, step.now);
      } else if !b.book.incidents[step.id].Active() {
        var k := FirstActive(b, resource).value;
        var after := After(b, Other(step));
        assert Concerns(after, k, resource) && Concerns(after, step.id, resource);
      }
    } else {
      OtherStepsTell(b, step, resource, alarms[resource]);
    }
  }

  // ---- runs ----------------------------------------------------------------------------

  function Run(events: seq<Event>): (r: (Board, P.Alarms))
    ensures WellFormed(r.0)
  {
    if events == [] then (Board(I.Book([], []), []), P.Quiet())
    else
      var (b, alarms) := Run(events[..|events| - 1]);
      var e := events[|events| - 1];
      (After(b, e), NextAlarms(b, alarms, e))
  }

  predicate NeverDoubles(events: seq<Event>) {
    events == [] ||
    (NeverDoubles(events[..|events| - 1]) && !Doubles(Run(events[..|events| - 1]).0, events[|events| - 1]))
  }

  /** Over every run without a doubling reopen: a resource has an alarm exactly when an active incident bears its title,
      and never more than one does. */
  lemma {:induction false} AlarmsAreIncidents(events: seq<Event>, resource: nat)
    requires NeverDoubles(events) && resource < |P.LIMITS|
    ensures Told(Run(events).0, resource, Run(events).1[resource])
  {
    if events != [] {
      var (b, alarms) := Run(events[..|events| - 1]);
      var e := events[|events| - 1];
      AlarmsAreIncidents(events[..|events| - 1], resource);
      if e.Beat? {
        SweepTells(b, e.reading, e.now, |P.LIMITS|, resource, alarms[resource]);
      } else {
        StepTellsExactly(b, e.step, alarms, resource);
      }
    }
  }

  /** The heartbeats among the events. */
  function Readings(events: seq<Event>): seq<P.Reading> {
    if events == [] then []
    else
      var rest, e := Readings(events[..|events| - 1]), events[|events| - 1];
      if e.Beat? then rest + [e.reading] else rest
  }

  /** No pressure incident is resolved or reopened by hand. */
  predicate HandsOff(events: seq<Event>) {
    events == [] ||
    (HandsOff(events[..|events| - 1]) &&
     var b, e := Run(events[..|events| - 1]).0, events[|events| - 1];
     e.Other? && (e.step.Resolve? || e.step.Reopen?) && e.step.id < |b.about| ==> b.about[e.step.id].None?)
  }

  lemma {:induction false} UntouchedAlarms(events: seq<Event>)
    requires HandsOff(events)
    ensures NeverDoubles(events) && Run(events).1 == P.Run(Readings(events))
  {
    if events != [] {
      hide After, P.After;
      UntouchedAlarms(events[..|events| - 1]);
      var e := events[|events| - 1];
      if e.Beat? { assert Readings(events)[..|Readings(events)| - 1] == Readings(events[..|events| - 1]); }
    }
  }

  /** Left alone, the tables have exactly one active incident of a resource while some reading reached the limit and no
      later one fell below nine tenths of it, and otherwise none. */
  lemma IncidentsFollowReadings(events: seq<Event>, resource: nat)
    requires HandsOff(events) && resource < |P.LIMITS|
    ensures var b := Run(events).0;
      && AtMostOne(b, resource)
      && ((exists i :: 0 <= i < |b.about| && Concerns(b, i, resource)) <==>
          exists n: nat :: P.Raised(Readings(events), resource, n))
  {
    UntouchedAlarms(events);
    AlarmsAreIncidents(events, resource);
    P.ActiveExactlyWhileRaised(Readings(events), resource);
  }
}
