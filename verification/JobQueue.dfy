/** The `jobs` table as a queue: claim, lease renewal and expiry of a running job.

    Job ids come from AUTOINCREMENT and rows are not purged here, so the table is
    a sequence and a job's id is its index. */
module JobQueue {
  import opened Common

  datatype Status = Queued | Running | Completed | Failed {
    predicate Terminal() { Completed? || Failed? }
  }

  datatype Side = Iran | Kharej {
    function Other(): Side { if Iran? then Kharej else Iran }
  }

  /** What the payload asks for. A deployment's job names the row and the side it was queued for, a removal that no row
      links the tunnel itself; `Misc` is every kind whose result touches nothing modelled. */
  datatype Kind =
    | Deploy(dep: nat, side: Side)
    | Remove(dep: nat, side: Side)
    | Uninstall(plugin: string, name: string)
    | MonitorRun(monitor: nat)
    | Misc

  datatype Job = Job(node: nat, kind: Kind, status: Status, output: string, startedAt: Option<int>)

  const LEASE_SECONDS := 300

  function NewJob(node: nat, kind: Kind): Job {
    Job(node, kind, Queued, "", None)
  }

  predicate Claimable(job: Job, node: nat) {
    job.node == node && job.status == Queued
  }

  /** The job that a claim takes: the oldest one queued for the node. */
  function FirstQueued(jobs: seq<Job>, node: nat, from: nat := 0): (r: Option<nat>)
    requires from <= |jobs|
    ensures r.Some? ==> from <= r.value < |jobs| && Claimable(jobs[r.value], node)
    ensures r.Some? ==> forall k :: from <= k < r.value ==> !Claimable(jobs[k], node)
    ensures r.None? ==> forall k :: from <= k < |jobs| ==> !Claimable(jobs[k], node)
    decreases |jobs| - from
  {
    if from == |jobs| then None
    else if Claimable(jobs[from], node) then Some(from)
    else FirstQueued(jobs, node, from + 1)
  }

  function Claim(jobs: seq<Job>, node: nat, now: int): seq<Job> {
    match FirstQueued(jobs, node)
    case None => jobs
    case Some(j) => jobs[j := jobs[j].(status := Running, startedAt := Some(now))]
  }

  predicate Renewable(jobs: seq<Job>, j: nat, node: nat) {
    j < |jobs| && jobs[j].node == node && jobs[j].status == Running
  }

  function Renew(jobs: seq<Job>, j: nat, node: nat, now: int): seq<Job> {
    if Renewable(jobs, j, node) then jobs[j := jobs[j].(startedAt := Some(now))] else jobs
  }

  /** A NULL start time never compares as expired. */
  predicate Expired(job: Job, now: int) {
    job.status == Running && job.startedAt.Some? && job.startedAt.value < now - LEASE_SECONDS
  }

  function Requeued(job: Job, now: int): Job {
    if Expired(job, now) then job.(status := Queued, startedAt := None) else job
  }

  function Requeue(jobs: seq<Job>, now: int): (r: seq<Job>)
    ensures |r| == |jobs|
    ensures forall k :: 0 <= k < |jobs| ==> r[k] == Requeued(jobs[k], now)
  {
    seq(|jobs|, k requires 0 <= k < |jobs| => Requeued(jobs[k], now))
  }
}
