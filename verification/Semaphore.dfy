/** disconnect_aware_semaphore: request slots under disconnects and cancellations.

    Steps of different requests interleave freely. `granted` and `returned` count permits and are history. */
module Semaphore {

  /** The waiter that runs semaphore.acquire(): waiting, handed a permit, returned True, ended by cancellation. */
  datatype Waiter = Waiting | HandedOver | Acquired | Cancelled

  /** Where the context manager is: in its loop, in the body, in `finally` without the permit, left, or left by a
      second cancellation that struck inside `finally`. */
  datatype Phase = Polling | Body | Leaving | Left | Abandoned

  datatype Request = Request(phase: Phase, waiter: Waiter, granted: nat, returned: nat)

  datatype Gate = Gate(free: nat, requests: seq<Request>)

  datatype Step =
    | Arrive
    | HandOver(r: nat)      // the semaphore gives a free permit to a waiting task
    | AcquireReturns(r: nat)
    | Enter(r: nat)
    | Finish(r: nat)        // the body ends, or is cancelled
    | Leave(r: nat)         // the client has disconnected, or the request is cancelled
    | WaiterCancelled(r: nat) // acquire gives back a permit it had been handed
    | Collect(r: nat)       // gather returns the waiter's outcome
    | SecondCancel(r: nat)

  predicate Ended(w: Waiter) { w.Acquired? || w.Cancelled? }

  /** The steps a request can take. */
  predicate Enabled(g: Gate, s: Step) {
    s.Arrive? ||
    (s.r < |g.requests| &&
     var q := g.requests[s.r];
     match s
     case HandOver(_) => q.waiter.Waiting? && g.free > 0
     case AcquireReturns(_) => q.waiter.HandedOver?
     case Enter(_) => q.phase.Polling? && q.waiter.Acquired?
     case Finish(_) => q.phase.Body?
     case Leave(_) => q.phase.Polling?
     case WaiterCancelled(_) => (q.phase.Leaving? || q.phase.Abandoned?) && !Ended(q.waiter)
     case Collect(_) => q.phase.Leaving? && Ended(q.waiter)
     case SecondCancel(_) => q.phase.Leaving?)
  }

  /** The request after its step. */
  function Moved(q: Request, s: Step): Request {
    match s
    case Arrive => q
    case HandOver(_) => q.(waiter := HandedOver, granted := q.granted + 1)
    case AcquireReturns(_) => q.(waiter := Acquired)
    case Enter(_) => q.(phase := Body)
    case Finish(_) => q.(phase := Left, returned := q.returned + 1)
    case Leave(_) => q.(phase := Leaving)
    case WaiterCancelled(_) =>
      q.(waiter := Cancelled, returned := if q.waiter.HandedOver? then q.returned + 1 else q.returned)
    case Collect(_) => q.(phase := Left, returned := if q.waiter.Acquired? then q.returned + 1 else q.returned)
    case SecondCancel(_) => q.(phase := Abandoned)
  }

  function After(g: Gate, s: Step): Gate
    requires Enabled(g, s)
  {
    if s.Arrive? then g.(requests := g.requests + [Request(Polling, Waiting, 0, 0)])
    else
      var q := g.requests[s.r];
      var q' := Moved(q, s);
      Gate(if s.HandOver? then g.free - 1 else g.free + (q'.returned - q.returned), g.requests[s.r := q'])
  }

  /** A run takes the steps that are enabled, in order. */
  function Run(limit: nat, steps: seq<Step>): Gate {
    if steps == [] then Gate(limit, [])
    else
      var g := Run(limit, steps[..|steps| - 1]);
      if Enabled(g, steps[|steps| - 1]) then After(g, steps[|steps| - 1]) else g
  }

  // ---- one request -------------------------------------------------------------------

  /** The permit of a request is outstanding exactly while its waiter has it and the request has not left. */
  predicate HoldsPermit(q: Request) {
    q.waiter.HandedOver? || (q.waiter.Acquired? && !q.phase.Left?)
  }

  predicate Balanced(q: Request) {
    && q.granted <= 1 && q.granted == q.returned + (if HoldsPermit(q) then 1 else 0)
    && (q.phase.Body? ==> q.waiter.Acquired?)
    && (q.phase.Left? ==> Ended(q.waiter))
    && (q.waiter.Waiting? ==> q.granted == 0)
    && (q.waiter.Cancelled? ==> q.phase.Leaving? || q.phase.Left? || q.phase.Abandoned?)
  }

  lemma StepKeepsBalanced(g: Gate, s: Step)
    requires !s.Arrive? && Enabled(g, s) && Balanced(g.requests[s.r])
    ensures Balanced(Moved(g.requests[s.r], s))
  {
  }

  // ---- all requests ------------------------------------------------------------------

  /** Permits handed out and not given back. */
  function Outstanding(requests: seq<Request>): int {
    if requests == [] then 0
    else Outstanding(requests[..|requests| - 1]) + requests[|requests| - 1].granted - requests[|requests| - 1].returned
  }

  function Bodies(requests: seq<Request>): nat {
    if requests == [] then 0
    else Bodies(requests[..|requests| - 1]) + (if requests[|requests| - 1].phase.Body? then 1 else 0)
  }

  predicate IsLost(q: Request) { q.phase.Abandoned? && q.waiter.Acquired? }

  /** Permits that no step can give back any more. */
  function Lost(requests: seq<Request>): nat {
    if requests == [] then 0
    else Lost(requests[..|requests| - 1]) + (if IsLost(requests[|requests| - 1]) then 1 else 0)
  }

  lemma {:induction false} OutstandingUpdate(requests: seq<Request>, i: nat, q: Request)
    requires i < |requests|
    ensures Outstanding(requests[i := q]) ==
      Outstanding(requests) + (q.granted - q.returned) - (requests[i].granted - requests[i].returned)
  {
    var n := |requests| - 1;
    if i < n {
      assert requests[i := q][..n] == requests[..n][i := q];
      OutstandingUpdate(requests[..n], i, q);
    } else {
      assert requests[i := q][..n] == requests[..n];
    }
  }

  ghost predicate Conserved(limit: nat, g: Gate) {
    g.free + Outstanding(g.requests) == limit && forall i :: 0 <= i < |g.requests| ==> Balanced(g.requests[i])
  }

  lemma OutstandingAppend(requests: seq<Request>, q: Request)
    ensures Outstanding(requests + [q]) == Outstanding(requests) + q.granted - q.returned
  {
    assert (requests + [q])[..|requests|] == requests;
  }

  lemma ArrivalConserves(limit: nat, g: Gate)
    requires Conserved(limit, g)
    ensures Conserved(limit, After(g, Arrive))
  {
    var q := Request(Polling, Waiting, 0, 0);
    OutstandingAppend(g.requests, q);
    hide Outstanding;
    assert Balanced(q);
    hide Balanced;
    assert After(g, Arrive).requests == g.requests + [q];
  }

  lemma StepConserves(limit: nat, g: Gate, s: Step)
    requires Conserved(limit, g) && Enabled(g, s)
    ensures Conserved(limit, After(g, s))
  {
    hide Outstanding, Balanced;
    if s.Arrive? {
      ArrivalConserves(limit, g);
    } else {
      var q' := Moved(g.requests[s.r], s);
      assert Balanced(g.requests[s.r]);
      StepKeepsBalanced(g, s);
      OutstandingUpdate(g.requests, s.r, q');
      PermitsMove(g, s);
      hide Moved;
      assert After(g, s).requests == g.requests[s.r := q'];
    }
  }

  /** Only handing a permit over and giving one back move permits. */
  lemma PermitsMove(g: Gate, s: Step)
    requires !s.Arrive? && Enabled(g, s)
    ensures var q, q' := g.requests[s.r], Moved(g.requests[s.r], s);
      After(g, s).free + (q'.granted - q'.returned) == g.free + (q.granted - q.returned)
  {
  }

  /** Free permits and permits handed out always add up to the initial count, and every request that has left has
      returned exactly what it was granted. */
  lemma {:induction false} PermitsAreConserved(limit: nat, steps: seq<Step>)
    ensures Conserved(limit, Run(limit, steps))
    ensures forall i :: 0 <= i < |Run(limit, steps).requests| && Run(limit, steps).requests[i].phase.Left? ==>
      Run(limit, steps).requests[i].returned == Run(limit, steps).requests[i].granted
  {
    if steps != [] {
      var g := Run(limit, steps[..|steps| - 1]);
      PermitsAreConserved(limit, steps[..|steps| - 1]);
      if Enabled(g, steps[|steps| - 1]) { StepConserves(limit, g, steps[|steps| - 1]); }
    }
    var g := Run(limit, steps);
    forall i | 0 <= i < |g.requests| && g.requests[i].phase.Left?
      ensures g.requests[i].returned == g.requests[i].granted {
      assert Balanced(g.requests[i]);
    }
  }

  lemma {:induction false} BodiesHoldPermits(requests: seq<Request>)
    requires forall i :: 0 <= i < |requests| ==> Balanced(requests[i])
    ensures Bodies(requests) <= Outstanding(requests)
  {
    if requests != [] {
      BodiesHoldPermits(requests[..|requests| - 1]);
      assert Balanced(requests[|requests| - 1]);
    }
  }

  /** No interleaving runs more bodies at a time than the limit. */
  lemma BodiesWithinLimit(limit: nat, steps: seq<Step>)
    ensures Bodies(Run(limit, steps).requests) <= limit
  {
    PermitsAreConserved(limit, steps);
    BodiesHoldPermits(Run(limit, steps).requests);
  }

  // ---- getting the permits back ------------------------------------------------------

  /** Nothing is left to do for the request. */
  predicate Over(q: Request) { Ended(q.waiter) && (q.phase.Left? || q.phase.Abandoned?) }

  lemma {:induction false} OnlyLostOutstanding(requests: seq<Request>)
    requires forall i :: 0 <= i < |requests| ==> Balanced(requests[i]) && Over(requests[i])
    ensures Outstanding(requests) == Lost(requests)
  {
    if requests != [] {
      OnlyLostOutstanding(requests[..|requests| - 1]);
      assert Balanced(requests[|requests| - 1]) && Over(requests[|requests| - 1]);
    }
  }

  /** A second cancellation meets a request whose waiter has acquired, or acquire still returns after it. */
  predicate LosesPermit(g: Gate, s: Step) {
    Enabled(g, s) &&
    ((s.SecondCancel? && g.requests[s.r].waiter.Acquired?) || (s.AcquireReturns? && g.requests[s.r].phase.Abandoned?))
  }

  predicate LosesAt(limit: nat, steps: seq<Step>, k: nat)
    requires k < |steps|
  {
    LosesPermit(Run(limit, steps[..k]), steps[k])
  }

  function LosingSteps(limit: nat, steps: seq<Step>): nat {
    if steps == [] then 0
    else
      var rest := steps[..|steps| - 1];
      LosingSteps(limit, rest) + (if LosesPermit(Run(limit, rest), steps[|steps| - 1]) then 1 else 0)
  }

  lemma {:induction false} LostUpdate(requests: seq<Request>, i: nat, q: Request)
    requires i < |requests|
    ensures Lost(requests[i := q]) ==
      Lost(requests) + (if IsLost(q) then 1 else 0) - (if IsLost(requests[i]) then 1 else 0)
  {
    var n := |requests| - 1;
    if i < n {
      assert requests[i := q][..n] == requests[..n][i := q];
      LostUpdate(requests[..n], i, q);
    } else {
      assert requests[i := q][..n] == requests[..n];
    }
  }

  lemma {:induction false} LostCountsSteps(limit: nat, steps: seq<Step>)
    ensures Lost(Run(limit, steps).requests) == LosingSteps(limit, steps)
  {
    if steps != [] {
      var g, s := Run(limit, steps[..|steps| - 1]), steps[|steps| - 1];
      LostCountsSteps(limit, steps[..|steps| - 1]);
      PermitsAreConserved(limit, steps[..|steps| - 1]);
      if Enabled(g, s) {
        if s.Arrive? {
          assert After(g, s).requests[..|g.requests|] == g.requests;
        } else {
          assert Balanced(g.requests[s.r]);
          LostUpdate(g.requests, s.r, Moved(g.requests[s.r], s));
        }
      }
    }
  }

  lemma {:induction false} NoLosingSteps(limit: nat, steps: seq<Step>)
    ensures LosingSteps(limit, steps) == 0 <==> forall k :: 0 <= k < |steps| ==> !LosesAt(limit, steps, k)
  {
    hide LosesPermit, Run;
    if steps != [] {
      var rest := steps[..|steps| - 1];
      NoLosingSteps(limit, rest);
      forall k | 0 <= k < |rest| ensures LosesAt(limit, rest, k) <==> LosesAt(limit, steps, k) {
        assert rest[..k] == steps[..k];
      }
      assert LosesAt(limit, steps, |rest|) <==> LosesPermit(Run(limit, rest), steps[|rest|]);
    }
  }

  /** Once every request is over, each such step of the run has cost one permit and nothing else has: all permits are
      free again exactly when there was none. */
  lemma AllPermitsReturnExactly(limit: nat, steps: seq<Step>)
    requires forall i :: 0 <= i < |Run(limit, steps).requests| ==> Over(Run(limit, steps).requests[i])
    ensures Run(limit, steps).free == limit - LosingSteps(limit, steps)
    ensures Run(limit, steps).free == limit <==>
      forall k :: 0 <= k < |steps| ==> !LosesAt(limit, steps, k)
  {
    PermitsAreConserved(limit, steps);
    OnlyLostOutstanding(Run(limit, steps).requests);
    LostCountsSteps(limit, steps);
    NoLosingSteps(limit, steps);
  }

  /** With at most one cancellation per request no request is ever abandoned. */
  lemma {:induction false} OneCancellationAbandonsNone(limit: nat, steps: seq<Step>)
    requires forall i :: 0 <= i < |steps| ==> !steps[i].SecondCancel?
    ensures forall i :: 0 <= i < |Run(limit, steps).requests| ==> !Run(limit, steps).requests[i].phase.Abandoned?
  {
    if steps != [] {
      OneCancellationAbandonsNone(limit, steps[..|steps| - 1]);
      assert !steps[|steps| - 1].SecondCancel?;
    }
  }

  lemma RunLeads(limit: nat, steps: seq<Step>, s: Step, longer: seq<Step>)
    requires longer == steps + [s] && Enabled(Run(limit, steps), s)
    ensures Run(limit, longer) == After(Run(limit, steps), s)
  {
    assert longer[..|steps|] == steps;
  }

  const ACQUIRED: seq<Step> := [Arrive, HandOver(0), AcquireReturns(0)]

  lemma AcquiredRun()
    ensures Run(1, ACQUIRED) == Gate(0, [Request(Polling, Acquired, 1, 0)])
  {
    assert Run(1, []) == Gate(1, []);
    RunLeads(1, [], Arrive, [Arrive]);
    assert Run(1, [Arrive]) == Gate(1, [Request(Polling, Waiting, 0, 0)]);
    RunLeads(1, [Arrive], HandOver(0), [Arrive, HandOver(0)]);
    assert Run(1, [Arrive, HandOver(0)]) == Gate(0, [Request(Polling, HandedOver, 1, 0)]);
    RunLeads(1, [Arrive, HandOver(0)], AcquireReturns(0), ACQUIRED);
  }

  /** The second cancellation does lose a permit. */
  lemma SecondCancelLosesPermit()
    ensures var g := Run(1, ACQUIRED + [Leave(0), SecondCancel(0)]);
      g.free == 0 && |g.requests| == 1 && Over(g.requests[0])
  {
    AcquiredRun();
    var leaving := ACQUIRED + [Leave(0)];
    RunLeads(1, ACQUIRED, Leave(0), leaving);
    assert Run(1, leaving) == Gate(0, [Request(Leaving, Acquired, 1, 0)]);
    RunLeads(1, leaving, SecondCancel(0), ACQUIRED + [Leave(0), SecondCancel(0)]);
  }

  /** The semaphore and its requests. The `finally` block runs without suspending except in gather. */
  class SlotGate {
    var free: nat
    var requests: seq<Request>

    ghost function View(): Gate
      reads this
    {
      Gate(free, requests)
    }

    constructor (limit: nat)
      ensures View() == Gate(limit, [])
    {
      free, requests := limit, [];
    }

    /** semaphore.release(), on behalf of a request. */
    method Release(r: nat)
      requires r < |requests|
      modifies this
      ensures free == old(free) + 1
      ensures requests == old(requests)[r := old(requests)[r].(returned := old(requests)[r].returned + 1)]
    {
      free := free + 1;
      requests := requests[r := requests[r].(returned := requests[r].returned + 1)];
    }

    /** `finally` for a request that holds the permit. */
    method ExitBody(r: nat)
      requires Enabled(View(), Finish(r))
      modifies this
      ensures View() == After(old(View()), Finish(r))
    {
      requests := requests[r := requests[r].(phase := Left)];
      Release(r);
    }

    /** `finally` for a request without it, once: the waiter is cancelled unless done, its outcome gathered, and a
        permit it acquired after all is released. `wins` says that acquire returns despite the cancellation. */
    method ExitWithoutBody(r: nat, wins: bool)
      requires Enabled(View(), Leave(r)) && Balanced(requests[r])
      modifies this
      ensures |requests| == |old(requests)|
      ensures forall i :: 0 <= i < |requests| && i != r ==> requests[i] == old(requests)[i]
      ensures requests[r].phase == Left && Balanced(requests[r]) && requests[r].granted == old(requests)[r].granted
      ensures free == old(free) + (if HoldsPermit(old(requests)[r]) then 1 else 0)
    {
      requests := requests[r := requests[r].(phase := Leaving)];
      if requests[r].waiter == Waiting {
        requests := requests[r := requests[r].(waiter := Cancelled)];
      } else if requests[r].waiter == HandedOver {
        if wins {
          requests := requests[r := requests[r].(waiter := Acquired)];
        } else {
          requests := requests[r := requests[r].(waiter := Cancelled)];
          Release(r);
        }
      }
      if requests[r].waiter == Acquired {
        Release(r);
      }
      requests := requests[r := requests[r].(phase := Left)];
    }
  }
}
