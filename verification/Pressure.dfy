/** Resource incidents of a node: opened at a limit, resolved below nine tenths of it. */
module Pressure {
  import opened Common

  /** The limits for CPU, RAM, DISK, INODE, LOAD, TEMPERATURE, NETWORK ERRORS, NETWORK DROPS, DOCKER UNHEALTHY. */
  const LIMITS: seq<real> := [90.0, 90.0, 90.0, 90.0, 8.0, 85.0, 10.0, 100.0, 1.0]

  /** One heartbeat's readings, in that order; a missing one is skipped. */
  type Reading = r: seq<Option<real>> | |r| == |LIMITS| witness [None, None, None, None, None, None, None, None, None]

  /** Which resources have an active incident. */
  type Alarms = a: seq<bool> | |a| == |LIMITS| witness [false, false, false, false, false, false, false, false, false]

  function Next(active: bool, value: Option<real>, limit: real): bool {
    if value.None? then active
    else if value.value >= limit && !active then true
    else if value.value < limit * 0.9 && active then false
    else active
  }

  function After(alarms: Alarms, reading: Reading): Alarms {
    seq(|LIMITS|, i requires 0 <= i < |LIMITS| => Next(alarms[i], reading[i], LIMITS[i]))
  }

  function Quiet(): Alarms { seq(|LIMITS|, i => false) }

  function Run(readings: seq<Reading>): Alarms {
    if readings == [] then Quiet() else After(Run(readings[..|readings| - 1]), readings[|readings| - 1])
  }

  predicate Below(value: Option<real>, bound: real) { value.Some? && value.value < bound }

  /** The n-th reading of the resource reached the limit and none since fell below nine tenths of it. */
  predicate Raised(readings: seq<Reading>, resource: nat, n: nat)
    requires resource < |LIMITS|
  {
    && n < |readings| && readings[n][resource].Some? && readings[n][resource].value >= LIMITS[resource]
    && forall k :: n < k < |readings| ==> !Below(readings[k][resource], LIMITS[resource] * 0.9)
  }

  lemma RaisedNext(readings: seq<Reading>, reading: Reading, resource: nat, n: nat)
    requires resource < |LIMITS| && n < |readings|
    ensures Raised(readings + [reading], resource, n) <==>
      Raised(readings, resource, n) && !Below(reading[resource], LIMITS[resource] * 0.9)
  {
    var longer := readings + [reading];
    assert longer[|readings|] == reading;
    assert forall k :: 0 <= k < |readings| ==> longer[k] == readings[k];
  }

  /** An incident of a resource is active exactly when some reading reached the limit and was followed only by readings
      of at least nine tenths of it, or by none. */
  lemma {:induction false} ActiveExactlyWhileRaised(readings: seq<Reading>, resource: nat)
    requires resource < |LIMITS|
    ensures Run(readings)[resource] <==> exists n: nat :: Raised(readings, resource, n)
  {
    if readings != [] {
      var last := |readings| - 1;
      var rest, value, limit := readings[..last], readings[last][resource], LIMITS[resource];
      assert rest + [readings[last]] == readings;
      ActiveExactlyWhileRaised(rest, resource);
      assert Run(readings)[resource] == Next(Run(rest)[resource], value, limit);
      assert LIMITS[resource] > 0.0;
      forall n: nat | n < last ensures Raised(readings, resource, n) <==>
        Raised(rest, resource, n) && !Below(value, limit * 0.9) {
        RaisedNext(rest, readings[last], resource, n);
      }
      if value.Some? && value.value >= limit {
        assert Raised(readings, resource, last);
      } else if n: nat :| Raised(rest, resource, n) {
        assert Raised(readings, resource, n) <==> !Below(value, limit * 0.9);
      }
    }
  }

  /** The limits one by one: readings at them raise every alarm, nine tenths of them keep it, and less clears it. */
  lemma LimitsOneByOne(low: seq<real>)
    requires |low| == 9 && low[0] < 81.0 && low[1] < 81.0 && low[2] < 81.0 && low[3] < 81.0 && low[4] < 7.2
    requires low[5] < 76.5 && low[6] < 9.0 && low[7] < 90.0 && low[8] < 0.9
    ensures |LIMITS| == 9
    ensures var at := [90.0, 90.0, 90.0, 90.0, 8.0, 85.0, 10.0, 100.0, 1.0];
      var kept := [81.0, 81.0, 81.0, 81.0, 7.2, 76.5, 9.0, 90.0, 0.9];
      var raised := After(Quiet(), seq(9, i requires 0 <= i < 9 => Some(at[i])));
      && (forall i :: 0 <= i < 9 ==> raised[i])
      && After(raised, seq(9, i requires 0 <= i < 9 => Some(kept[i]))) == raised
      && After(raised, seq(9, i requires 0 <= i < 9 => Some(low[i]))) == Quiet()
  {
  }

  class ResourceIncidents {
    var alarms: Alarms

    constructor ()
      ensures alarms == Quiet()
    {
      alarms := Quiet();
    }

    /** The loop over resource_limits in agent_heartbeat. */
    method CheckLimits(reading: Reading)
      modifies this
      ensures alarms == After(old(alarms), reading)
    {
      for i := 0 to |LIMITS|
        invariant forall k :: 0 <= k < |LIMITS| ==>
          alarms[k] == if k < i then Next(old(alarms)[k], reading[k], LIMITS[k]) else old(alarms)[k]
      {
        if reading[i].Some? {
          var value, limit := reading[i].value, LIMITS[i];
          if value >= limit && !alarms[i] {
            alarms := alarms[i := true];
          } else if value < limit * 0.9 && alarms[i] {
            alarms := alarms[i := false];
          }
        }
      }
      assert alarms == After(old(alarms), reading);
    }
  }
}
