# DARK NOC: a verified model

DARK NOC is a Hub (FastAPI over SQLite) that drives Agents on remote nodes. This project models the protocols and
transactions between them in Dafny and proves what they keep over every run. `dafny verify dfyconfig.toml` checks
everything.

How it is organised:

* **Jobs and deployments.** `JobQueue`, `FleetItems` and `HubState` hold the tables as values, one function per handler.
  `Saga` is the transition system over all handlers with its inductive invariant; `SagaTheorems`, `ExactlyOnce`,
  `Effects`, `FleetRuns`, `JobLease`, `NameUniqueness`, `Installed` (what the jobs have left on the Agents) and
  `Agreement` (of a tunnel's two ends) prove properties of every interleaving. `RetryTrap`, `ReconfigureTrap`,
  `RevivalTrap` and `StrayJobTraps` are failing runs from the empty Hub; `Traces` has the steps such runs are put
  together from.
  `HubStore` is the same store as a class whose methods update the tables statement by statement; each is proved to do
  exactly what its step function says.
* **Rollouts and leadership.** `RolloutPlan` (canary first, bounded batches), `FleetRollout` (the orchestrator, its
  items and operator cancellation interleaved) and `HubLease` (the controller lease between Hubs).
* **Remote transactions.** `RemoteFiles` is a remote file system with an arbitrary schedule of faults: a call may fail
  with or without having taken effect. `Hit` reads a schedule beside a list of calls and says whether the first fault
  takes effect and strikes a marked call. `SftpFinalize` is the atomic replace, `Rollback` and `Activation` the staged
  installation of an Agent. Plain rename refuses an existing destination (section 6.5 of
  draft-ietf-secsh-filexfer-02); POSIX rename replaces it.
* **Realm.** `RealmText` (numbers, the mapping pattern, lists), `RealmMappings` (canonicalise and parse),
  `RealmRouting` (rendered tables, reconfiguration), `RealmSpecs` (what every list of specifications comes to),
  `RealmFirewall` (UFW rules and their ownership file).
* **Caches, limiters, incidents.** `Rollup` and `HourlyMetrics`, `Semaphore`, `AutoHeal`, `Incidents`, `Heartbeat`
  (streaks, tunnel rows), `TunnelIncidents` (the count of the one is that of the rows of the other), `Pressure`
  (resource limits) with `PressureIncidents` (their rows), `Discovery` (the Agent's cached scan and its completeness
  flag), `Inventory` (which heartbeats may delete rows).

Handlers are atomic steps: each of them is one database transaction of the source. `agent_job_result` selects a row and
updates it afterwards, so its atomicity is an assumption. A run is any finite sequence of steps with any arguments,
including stale, repeated and refused ones. Ghost state records what no table holds: the tunnels installed on the
Agents, all samples ever recorded, all restarts, permits taken and returned, which job wrote a check and which scan a
cache holds. An Agent keeps tunnels by plugin and name, and `installed` does too: a removal takes whatever bears that name
on the node, whichever deployment put it there. A job's work on its node counts from the moment its result is accepted; a
failed job leaves its tunnel there or not, as the run pleases.

## Where the code does less than one would expect

For each of these the first theorem named gives the exact condition, the others a run on which it fails.

* A retry out of `removing` skips a side whose removal completed, so that side ends up without the tunnel and without a
  deploy (`Installed.RetryCoversEverySide`, `Agreement.RetryKeepsAgreementExactly`; `RetryTrap.RetryCanForgetAnEnd`).
* Reconfiguring a deployed tunnel whose two new deploys end differently rolls back the side that succeeded and leaves
  the old tunnel on the other: the row says `rolled_back`, one end still has it
  (`Agreement.PlainStepsExactly`, `Agreement.ResultKeepsAgreementExactly`; `ReconfigureTrap.ReconfigureCanSplitTheEnds`).
* A retry or removal of a `rolled_back` deployment does not look at the name again
  (`NameUniqueness.NamesStayUniqueExactly`; `RevivalTrap.NamesCanClash`). Such a removal takes away the tunnel of the
  deployment that has the name now, which stays `active` with both deploys completed
  (`Installed.RemovalNamesAnothersExactly`; `RevivalTrap.RemovalCanTakeAnothersTunnel`).
* Removing or reconfiguring an active tunnel does not wait for jobs under way, and no row links those any more: a removed
  tunnel can come back on one node. A removal queued for a tunnel without a row can take the tunnel of a deployment
  created meanwhile (`Installed.LeavesJobsExactly`, `Installed.MeetsUninstallExactly`;
  `StrayJobTraps.RemovedTunnelCanReturn`, `StrayJobTraps.UninstallCanTakeNewTunnel`).
* The completeness flag of a heartbeat is read from the discovery cache and not taken from the snapshot that its reports
  were made of. After a scan that gave up, or was replaced in time by another thread's, an incomplete or arbitrarily old
  list goes out as complete and fresh, and the Hub deletes tunnels by it (`Discovery.FlagAgreesExactly`,
  `Inventory.TrustIsDeservedExactly`; `Inventory.StaleInventoryIsTrusted`).
* A complete scan looks at 256 candidates, and one of the two systemctl listings may have failed: a loaded tunnel whose
  files are gone then drops out of a list that counts as complete (`Discovery.WholeInventoryExactly`;
  `Discovery.LastCandidateIsMissed`, `Discovery.FailedListingDropsTunnel`).
* The telemetry age is truncated to whole seconds: "at most 90" means less than 91 (`Inventory.HubTrustsExactly`;
  `Inventory.AlmostNinetyOneSeconds`).
* Reconfiguring a Realm tunnel can hand out a backbone port twice, or one above 65535, and its Agents refuse it
  (`RealmRouting.ReconfigureIsAcceptedExactly`; `RealmRouting.ReconfigureCanDuplicateBackbone`,
  `RealmRouting.ReconfigureCanRunOutOfPorts`). It moves targets to other ports when the mappings were not listed by
  increasing public port (`RealmRouting.SamePortsKeepMappingsExactly`; `RealmRouting.ReconfigureCanMoveTargets`).
* A Realm deploy that fails while saving the Agent's own configuration keeps its new firewall rules
  (`RealmFirewall.FailedDeployRestoresExactly`; `RealmFirewall.FailedDeployCanLeaveRule`). A redeploy keeps owning ports
  it no longer uses, so that removing the tunnel can close a port another tunnel has taken
  (`RealmFirewall.RemovalKeepsOtherOpen`; `RealmFirewall.RedeployCanCloseAnotherTunnel`).
* An operator's reopen can give a tunnel two active incidents (`Incidents.ReopenKeepsOneActiveExactly`;
  `Incidents.ReopenCanDouble`).
* Agent activation is all-or-nothing unless the first fault takes effect and strikes a call that creates, backs up,
  replaces or renames something (`Activation.Activate`; `Activation.LastCallCanTear`,
  `Activation.RenameReportsFailure`).
* Without stop-on-failure, cancelling a rollout between two batches hides an earlier failure: the operation stays
  `cancelled` (`FleetRollout.ReturnedStatusExactly`; `FleetRollout.CancelCanHideFailure`).
* A cycle that raises after Auto-Heal restarted something forgets that (`AutoHeal.CycleIsRememberedExactly`;
  `AutoHeal.UnmergedCycleIsForgotten`).
* A second cancellation inside the semaphore's `finally` can lose a permit (`Semaphore.AllPermitsReturnExactly`;
  `Semaphore.SecondCancelLosesPermit`).

## Model

| member | source | states |
|---|---|---|
| JobQueue.FirstQueued | hub/agent_control_router.py:296-298 | a claim takes the lowest queued id of the node, and none only if there is none |
| Saga.LinkedOnce | hub/agent_control_router.py:373 | a job is linked by one deployment row at most: the row that the result handler finds is the one the job was queued for |
| Saga.RetryKeeps | hub/plugin_deployment_service.py:399-433 | a retry keeps the saga invariant of every row |
| Saga.RelinkBothKeeps | hub/node_tunnel_service.py:313-327 | queueing both sides anew, for a reconfiguration or a removal, keeps it too |
| Saga.LinkedRowSettles | hub/agent_control_router.py:373-389 | the row whose own job turns terminal satisfies the invariant again, whatever its lifecycle |
| Saga.StepKeeps | hub/agent_control_router.py:293-400 | every handler keeps the invariant: links resolve to jobs of the right node and side, and the two linked jobs fit the lifecycle |
| Saga.Run | hub/plugin_deployment_service.py:380-468 | the invariant holds after every finite interleaving of handlers |
| SagaTheorems.SagaAtEveryPoint | hub/agent_control_router.py:373-389 | `active` never rests on one completed and one failed job; `rolling_back` has an unfinished removal beside a failed deploy; `rolled_back` has that removal completed; `rollback_failed` has both failed |
| SagaTheorems.OnlyItsRemovalEndsRollback | hub/agent_control_router.py:386-389 | the only step that changes a `rolling_back` row is the accepted result of its own removal |
| SagaTheorems.CompensationIsQueuedOnce | hub/agent_control_router.py:377-385 | a row enters `rolling_back` only by the result of one of its jobs, which queues exactly one job: the removal on the node whose deploy completed |
| SagaTheorems.RemovedIsFinished | hub/plugin_deployment_service.py:401-402 | once both removals of a deployment have completed its row never changes again, over every run |
| SagaTheorems.StepLeavesRemoved | hub/plugin_deployment_service.py:401-453 | no step changes such a row, and a retry or another removal of it is refused as a conflict |
| SagaTheorems.AnswersExactly | hub/plugin_deployment_service.py:399-454 | a row is never stuck: a retry is accepted if and only if it is permitted, both jobs are over and the deployment is not removed, a removal if and only if both jobs are over and none was asked for; `rolling_back` needs no guard of its own |
| SagaTheorems.UnknownRowIsMissing | hub/plugin_deployment_service.py:396-398 | a retry or removal of a row that does not exist is answered as not found |
| SagaTheorems.CreatedExactly | hub/plugin_deployment_service.py:260-287 | a deployment is created if and only if it may be, its two nodes differ and every other one of its name was rolled back or has neither node |
| SagaTheorems.ForbiddenIsRefused | hub/plugin_deployment_service.py:407-419 | without permission nothing is created, retried or reconfigured |
| SagaTheorems.ReconfiguredExactly | hub/node_tunnel_service.py:313-327 | a reconfiguration asks nothing but an active row and the permission, and queues a deploy on either node whatever is under way |
| SagaTheorems.EitherEndRemovesBoth | hub/node_tunnel_service.py:356-387 | the tunnel of an active deployment is removed on both nodes whichever of its ends is asked for |
| ExactlyOnce.StepEvolves | hub/agent_control_router.py:301-316 | job rows are only appended; a job turns terminal exactly by an accepted delivery of its own result |
| ExactlyOnce.RefusedHasNoEffect | hub/agent_control_router.py:305-315 | a step that is refused or acknowledged as a repetition changes nothing |
| ExactlyOnce.DeliveryStages | hub/agent_control_router.py:316-389 | an accepted result is recorded, applied to monitor and fleet, then to the deployment, each once |
| ExactlyOnce.DeliveryIsAnswered | hub/agent_control_router.py:303-315 | a result is accepted if and only if it comes from the node that runs the job, not found if and only if that node has no such job, and acknowledged if and only if the job is finished with this very result |
| ExactlyOnce.TerminalForever | hub/agent_control_router.py:308-315 | once terminal, a job row never changes again, over every run |
| ExactlyOnce.RedeliveryHasNoEffect | hub/agent_control_router.py:308-312 | however much later an accepted result is delivered again, nothing changes; the same result is acknowledged, another one refused |
| Effects.OneCheckPerRun | hub/agent_control_router.py:329-350 | over every run the check rows ever written for a monitor are in bijection with its finished jobs: each was written by one of them, each of them wrote one, and it says up only if its job completed; the streak is the trailing run of failed ones, and the last one says whether the monitor is up |
| Effects.RequestedRunIsRecorded | hub/agent_control_router.py:329-350 | the job of a requested check stays that check through every run, and has written its row if and only if it is finished |
| Effects.CheckTellsTheReport | hub/agent_control_router.py:329-350 | the result of a check writes one row for good: up if and only if the job completed and its report says so |
| Effects.FleetMirrorsJobs | hub/agent_control_router.py:366-372 | over every run each fleet item has the status of its job, and a started operation the status its items call for |
| FleetRuns.FleetFromCreation | hub/certificate_fleet_service.py:212-268 | over every run from its creation on, an operation keeps one item for each of its nodes, in order; the first of queueing and cancelling decides it: queued, each item has a job on its node and the operation is running, failed or completed as these jobs alone say; cancelled, it never has a job |
| JobLease.StartIsLastRefresh | hub/agent_control_router.py:394-400 | the start time of a running job is its last claim or renewal |
| JobLease.ClaimStartsTheOldest | hub/agent_control_router.py:294-299 | a claim starts the oldest job that waits for the node and changes no other |
| JobLease.RenewalIsAnswered | hub/agent_control_router.py:394-400 | a renewal is accepted if and only if the node runs the job, and then restarts its lease |
| JobLease.ClaimsMatchRequeues | hub/maintenance_runtime.py:175 | a job has been claimed as often as it was requeued, plus one if it has left the queue |
| JobLease.RequeuedExactlyWhenLeaseLapses | hub/maintenance_runtime.py:175 | a job is never requeued if and only if every cycle that finds it running comes within 300 seconds of its last refresh |
| JobLease.KeptLeaseMeansOneOwner | hub/maintenance_runtime.py:175 | such a job is claimed at most once in the whole run |
| JobLease.RenewalsKeepLease | agent/agent.py:1750-1759 | if after the claim and after each renewal the Agent is heard of again, by a renewal or the result, within 60 seconds and a delay of at most 240, every cycle finds the lease kept and the job has one owner |
| JobLease.LateRenewalLosesLease | agent/agent.py:1753-1758 | with a delay of 241 seconds there is a run that claims the job twice |
| Installed.ToldOverRuns | hub/plugin_deployment_service.py:399-467 | unless a row is relinked under running jobs, meets an unlinked removal of its tunnel, or comes back under a taken name, a completed linked job of a live row always tells what its node has: the tunnel after a deploy, none after a removal, whatever else fails |
| Installed.RetryCoversEverySide | hub/plugin_deployment_service.py:401-428 | after a retry every side has the tunnel or a fresh deploy if and only if the row was `rolled_back` or no side's completed job was a removal |
| Installed.OtherPlacesUntouched | agent/realm_plugin.py:669-685 | on such runs an unfinished job names no live row's tunnel but that of the row and side that link it |
| Installed.LeavesJobsExactly | hub/node_tunnel_service.py:350-405 | an accepted reconfiguration or tunnel removal leaves every unfinished job linked and no removal without a row aimed at a live row's tunnel if and only if the row it relinks has no job under way, or the unmanaged tunnel is no live row's |
| Installed.MeetsUninstallExactly | hub/plugin_deployment_service.py:267-287 | a creation, retry or removal that is accepted makes a row live under a pending removal without a row if and only if one is pending for a tunnel of that row |
| Installed.RemovalNamesAnothersExactly | hub/plugin_deployment_service.py:450-467 | an accepted removal is aimed at another live row's tunnel if and only if the removed row was `rolled_back` and its name, with the same plugin, has been taken |
| Agreement.EndsAgree | hub/agent_control_router.py:373-389 | over every orderly run on which no retry skips a completed removal, nothing installed is reconfigured and a deployment's job that fails leaves no tunnel: once both linked jobs of a live row are terminal its tunnel is installed on both nodes, exactly if the row is active and both deploys completed, or on neither; what is installed under a `rolled_back` row's name is another live row's |
| Agreement.PlainStepsExactly | hub/agent_control_router.py:373-389 | an orderly step keeps the invariant behind this if and only if it meets those three conditions |
| Agreement.AgreementOverRuns | hub/agent_control_router.py:373-389 | that invariant holds over every such run; a weaker one, without what the statuses tell, over runs that may redeploy installed tunnels and leave tunnels behind, if no result is of a kind that parts the ends |
| Agreement.PlainIsClean | hub/agent_control_router.py:373-389 | runs of the first kind are of the second: there a result cannot part the ends |
| Agreement.EndsAgreeUnlessParted | hub/agent_control_router.py:373-389 | on runs of the second kind too the tunnel of a settled live row is installed on both nodes or on neither |
| Agreement.InstalledHasOneOwner | hub/plugin_deployment_service.py:267-274 | on runs of either kind every installed tunnel is that of exactly one side of exactly one live row |
| Agreement.DeploysAreNeeded | hub/plugin_deployment_service.py:420-433 | on runs of the first kind a deploy is only ever queued for a tunnel that is not there |
| Agreement.ResultKeepsAgreementExactly | hub/agent_control_router.py:373-389 | an accepted result keeps the weaker invariant if and only if, as the row's second result, it is none of these: a completed deploy beside a failed one whose node has the tunnel; a failed deploy that leaves its tunnel beside a completed one; of two failed deploys one that leaves its tunnel where the other node has none, or none where it has; a removal after which this node differs from what the other has |
| Agreement.RetryKeepsAgreementExactly | hub/plugin_deployment_service.py:401-428 | a retry under a free name keeps either invariant if and only if it skips no completed removal |
| Agreement.FailedRollbackSplitsTheEnds | hub/agent_control_router.py:386-389 | the result of a compensating removal leaves the ends agreeing if and only if the tunnel is gone after it |
| Agreement.RollbackOfRedeploySplitsTheEnds | hub/agent_control_router.py:386-389 | on a row whose tunnel both nodes have, the result of a compensating removal keeps the ends alike if and only if it failed and left the tunnel |
| RetryTrap.RetryCanForgetAnEnd | hub/plugin_deployment_service.py:401-428 | a run on which an active deployment has an end that neither has the tunnel nor has a deploy to come |
| ReconfigureTrap.ReconfigureCanSplitTheEnds | hub/node_tunnel_service.py:313-327 | a run that deploys, reconfigures and ends `rolled_back` with the tunnel on one node |
| NameUniqueness.NamesStayUniqueExactly | hub/plugin_deployment_service.py:267-274 | a step keeps the names of live deployments unique on a node if and only if it does not revive, by a permitted retry or a removal, a `rolled_back` row whose name is taken |
| RevivalTrap.NamesCanClash | hub/plugin_deployment_service.py:421 | a run that ends with two live deployments of one name on one node |
| RevivalTrap.RemovalCanTakeAnothersTunnel | hub/plugin_deployment_service.py:450-467 | a run after which an active deployment, both deploys completed, has lost its tunnel on one node to the removal of a rolled-back one |
| StrayJobTraps.RemovedTunnelCanReturn | hub/node_tunnel_service.py:369-387 | a run on which a tunnel is removed while a deploy is under way, both removals complete, and the tunnel is on one node in the end |
| StrayJobTraps.UninstallCanTakeNewTunnel | hub/node_tunnel_service.py:388-405 | a run on which a removal without a row takes a tunnel of a deployment created while it was pending |
| HubStore.Store.ClaimJob | hub/agent_control_router.py:294-299 | the claiming UPDATE does the claim step |
| HubStore.Store.RenewLease | hub/agent_control_router.py:394-400 | the guarded UPDATE and its row count do the renewal step |
| HubStore.Store.RequeueExpired | hub/maintenance_runtime.py:175 | the cycle's UPDATE, row by row, is the requeue step |
| HubStore.Store.DeployManaged | hub/plugin_deployment_service.py:267-287 | two INSERTs of jobs and one of the deployment, or a refusal without change |
| HubStore.Store.RetryManaged | hub/plugin_deployment_service.py:399-433 | the refusals and the loop over the two sides are the retry step |
| HubStore.Store.RemoveManaged | hub/plugin_deployment_service.py:450-467 | the removal step, with its refusals |
| HubStore.Store.ReconfigureTunnel | hub/node_tunnel_service.py:313-327 | the managed branch does the reconfiguration step |
| HubStore.Store.RemoveTunnelOf | hub/node_tunnel_service.py:356-405 | the look-up of the managed row and the two removals, or the single one without a row, are the tunnel removal step |
| HubStore.Store.QueueDueFleet | hub/maintenance_runtime.py:99-121 | the loop over the items queues one job for each that has none |
| HubStore.Store.DeliverResult | hub/agent_control_router.py:302-392 | the whole handler does exactly the delivery step, with its four answers |
| FleetItems.Finalize | hub/app.py:1244-1255 | the four counts give failed before cancelled before completed, once all items are terminal |
| RolloutPlan.MakeBatches | hub/app.py:1285-1289 | the slicing loop computes the canary's batch followed by the bounded chunks |
| RolloutPlan.BatchesConcat | hub/app.py:1285-1289 | the batches concatenate to the rollout, and none is empty or larger than the size |
| RolloutPlan.UpgradeBatchesPartition | hub/certificate_fleet_service.py:212-235 | every created item is in exactly one batch, the canary alone in the first |
| FleetRollout.RunKeepsInv | hub/app.py:1290-1320 | the rollout invariant over every interleaving of batches, finishing items and cancellation |
| FleetRollout.ReturnedStatusExactly | hub/app.py:1305-1320 | on return every item is terminal, and the operation is `failed` if an item failed, else `cancelled` if one was dropped, else `completed`, if and only if no step, without stop-on-failure, cancelled it while no item ran and one had failed |
| FleetRollout.OutcomesAreRecorded | hub/app.py:1261-1274 | over every run an item is done if and only if a step ended it with success, and failed if and only if one ended it with failure |
| FleetRollout.SuccessIsComplete | hub/app.py:1261-1320 | a run without cancellation on which no item fails returns with every item done and the operation completed |
| FleetRollout.NothingStartsAfterFailure | hub/app.py:1307-1318 | with stop-on-failure no item of a later batch starts once one has failed |
| FleetRollout.BatchesRunInOrder | hub/app.py:1290-1304 | an item starts only when every item of the earlier batches has finished |
| FleetRollout.OnlyScheduledItemsStart | hub/app.py:1292-1296 | the unconditional UPDATE of a batch only meets scheduled items, and none is left after a cancellation |
| FleetRollout.CanaryGoesFirst | hub/app.py:1287-1289 | any other item starts only after the canary has finished, with stop-on-failure only if it succeeded |
| FleetRollout.CancelCanHideFailure | hub/certificate_fleet_service.py:258-268 | for every rollout of two or more nodes without stop-on-failure, a run that returns with a failed canary and the status `cancelled` |
| FleetRollout.Orchestrator.Start | hub/app.py:1291-1301 | the status check and the loop over a batch do the start step |
| FleetRollout.Orchestrator.Finish | hub/app.py:1261-1274 | the `finally` of an item does the finish step; `OutcomesAreRecorded` says what that records |
| FleetRollout.Orchestrator.AfterBatch | hub/app.py:1308-1318 | what follows gather does the check step |
| FleetRollout.Orchestrator.CancelOperation | hub/certificate_fleet_service.py:255-268 | cancelling is refused, or drops exactly the scheduled items |
| HubLease.TakeoverOnlyAfterExpiry | hub/maintenance_runtime.py:21-32 | another Hub acquires the lease only strictly after the holder's last expiry or after its release |
| HubLease.GrantedExactlyWhenFree | hub/maintenance_runtime.py:21-32 | over every sequence of requests and releases the lease is granted if and only if the last grant was to the same Hub, was released by its holder or ran out before this second |
| HubLease.CyclesAreExclusive | hub/maintenance_runtime.py:191-206 | cycles of different Hubs never overlap when each ends within its lease |
| HubLease.LongCycleOverlaps | hub/maintenance_runtime.py:191-206 | a cycle that outlasts its lease can overlap |
| HubLease.LeaseTable.AcquireHubLease | hub/maintenance_runtime.py:21-32 | the upsert and the row read back grant the lease exactly as the step says |
| HubLease.LeaseTable.ReleaseLeases | hub/maintenance_runtime.py:232-234 | shutdown deletes the holder's own lease only |
| RemoteFiles.Remote.Rename | tests/file_ops.py:119-128 | plain rename refuses an existing destination; a failure may or may not have taken effect |
| RemoteFiles.Remote.PosixRename | tests/file_ops.py:130-136 | POSIX rename replaces the destination, or is unsupported without any effect |
| RemoteFiles.HarmlessNeverHits | tests/file_ops.py:119-136 | a schedule whose failures have no effect hits nothing, whatever the calls |
| SftpFinalize.FinalizeSftpFile | hub/app.py:1391-1437 | under any faults, at every intermediate point the old bytes are at the destination or the backup or the new ones at the destination, and with POSIX rename the destination is never missing; without `overwrite` an existing file is never touched; a normal return means the new bytes with the old mode; a finished rollback the same file as before; without faults it is refused if and only if the destination exists and may not be replaced or is a directory, and leaves nothing else changed |
| SftpFinalize.SwapWithBackup | hub/app.py:1412-1437 | the backup/swap path alone has these properties, and where one of its two renames fails and nothing else does, the rollback finishes and all but the upload is as before |
| SftpFinalize.UndoSwap | hub/app.py:1418-1424 | its rollback keeps the original at one of two places throughout and, if it finishes, puts it back |
| Rollback.UndoAllRestores | hub/app.py:1065-1075 | undoing the entries in reverse restores an entry if and only if its flags had kept up with the files |
| Rollback.VenvUndoneRestores | hub/app.py:1058-1064 | the virtualenv swap is undone when its flags had kept up, and is not when they lagged behind |
| Activation.StagingUndone | hub/app.py:1040-1048 | after failed staging the files are the same as before if and only if no staged file was created unnoticed |
| Activation.RollbackRestores | hub/app.py:1050-1075 | after a failure at any step the rollback restores every target and the virtualenv if and only if no failed call had changed a file |
| Activation.PutInPlace | hub/app.py:1101-1118 | how far the installation got is what the flags say, unless the first fault took effect and struck a marked call |
| Activation.Abandon | hub/app.py:1172-1182 | rollback and clean-up together give the very same files, under the same condition |
| Activation.Enroll | hub/app.py:1119-1171 | the token is set only by compare-and-set on a row that is still provisioning, and success needs both guarded updates to find the row as it was left |
| Activation.Complete | hub/app.py:1176-1195 | the clean-up after success leaves what was installed and every other file alone and, where no call fails, removes every staged file and backup |
| Activation.Activate | hub/app.py:1000-1203 | for any number of files, any faults and any change of the row by others: it succeeds if and only if no fault comes before the first heartbeat, every existing target can be replaced and the row is untouched at both updates; success puts every payload, the virtualenv and the row in place, and without faults leaves no staged file or backup; a failure gives back the very same files if and only if the first fault did not take effect in a marked call, takes back only its own token and never leaves the row provisioning; files that are not its own are left alone however it ends |
| Activation.LastCallCanTear | hub/app.py:1117 | whatever there is to install, a schedule whose only fault is the last rename, taking effect, is a hit |
| Activation.RenameReportsFailure | hub/app.py:1113-1116 | an installation whose first fault is the rename of the old virtualenv, taking effect: it fails and the files are not given back |
| RealmText.ValueOfPrint | hub/realm_support.py:90 | printing a number and reading it gives it back |
| RealmText.MatchSpecIsInverse | hub/realm_support.py:14 | the mapping pattern accepts exactly the texts of well-formed triples, each in one way |
| RealmText.StripDrops | hub/realm_support.py:63 | stripping a text takes the space around it and nothing else |
| RealmText.Separators | hub/realm_support.py:63 | tabs, line ends and the other separators are space, digits and the marks of a mapping are not |
| RealmText.SplitOfJoin | agent/realm_plugin.py:120 | splitting a joined list at commas gives the list back |
| RealmMappings.CanonicalRealmMappings | hub/realm_support.py:55-91 | the loop with its two sets accepts and prints what the specification declares, with the first error in order; `RealmSpecs` says what that is for every list of specifications |
| RealmMappings.ParseMappings | agent/realm_plugin.py:119-141 | the Agent's loop does what its specification says, blank texts skipped |
| RealmMappings.Declared | hub/realm_support.py:62-91 | accepted mappings are 1 to 256, in range, with distinct public and distinct backbone ports |
| RealmMappings.CollectDecides | hub/realm_support.py:72-90 | a list of readings is accepted if and only if it is in range and free of duplicates |
| RealmMappings.AgentReadsPrinted | agent/realm_plugin.py:119-141 | the Agent reads a printed list back if it is usable and refuses it otherwise |
| RealmMappings.AgentReadsWhatHubPrints | agent/realm_plugin.py:119-141 | for every input the Hub accepts, the Agent parses the printed list and the joined form to the declared triples |
| RealmMappings.CanonicalIsIdempotent | hub/realm_support.py:55-91 | canonicalising again changes nothing |
| RealmMappings.PlainPortsAccepted | hub/realm_support.py:63-86 | plain ports are accepted if and only if they are distinct and the counted backbone ports exist |
| RealmSpecs.SpecsAccepted | hub/realm_support.py:55-91 | any list of specifications, the four forms mixed and blank lines between, is accepted if and only if the mappings it asks for have ports from 1 to 65535 and no public and no backbone port twice, and is printed as these; a missing target is the public port, a missing backbone port is counted from the tunnel's |
| RealmSpecs.FirstErrorDecides | hub/realm_support.py:72-90 | the first specification that is out of range or repeats a port decides which error is raised |
| RealmSpecs.BlankLinesAreNone | hub/realm_support.py:63-65 | with nothing but blank lines the plain user ports count |
| RealmSpecs.AgentAccepts | agent/realm_plugin.py:119-141 | the Agent accepts a list of full specifications, in either form, if and only if it is not empty, within 256, in range and free of duplicates |
| RealmSpecs.AgentWantsAllParts | agent/realm_plugin.py:127-131 | it refuses a list with a specification that lacks a part |
| RealmRouting.RenderConfig | agent/realm_plugin.py:226-260 | the rendering loop writes one endpoint for each parsed mapping |
| RealmRouting.RoutingIsAsDeclared | agent/realm_plugin.py:226-260 | the rendered edge followed by the rendered gateway sends each declared public port to its declared target, and no other port anywhere |
| RealmSpecs.SpecsRouted | agent/realm_plugin.py:226-260 | for every accepted list of specifications both ends are rendered, and each public port goes through its backbone port to its target, no other port anywhere |
| RealmRouting.RebuildMappings | hub/node_tunnel_service.py:259-268 | the loop rebuilds the mappings by position |
| RealmSpecs.RebuiltFromSpec | hub/node_tunnel_service.py:259-268 | a reconfiguration keeps target and backbone of a stored mapping if and only if it has both |
| RealmRouting.ReconfigureIsAcceptedExactly | hub/node_tunnel_service.py:259-268 | the Agents accept the rebuilt mappings if and only if the counted backbone ports exist and are free |
| RealmRouting.ReconfigureCanDuplicateBackbone | hub/node_tunnel_service.py:261-267 | mappings and ports for which the same backbone port is handed out twice and the Agents refuse the result |
| RealmRouting.ReconfigureCanRunOutOfPorts | hub/node_tunnel_service.py:261-267 | and for which a backbone port above 65535 is |
| RealmRouting.SamePortsKeepMappingsExactly | hub/node_tunnel_service.py:229-268 | reconfiguring with the ports a tunnel has keeps its mappings if and only if they were listed by increasing public port |
| RealmRouting.ReconfigureCanMoveTargets | hub/node_tunnel_service.py:229-268 | two mappings whose targets change places when the tunnel is reconfigured with its own ports |
| RealmFirewall.Created | agent/realm_plugin.py:510-518 | the rules reported as added are the ports that were not open, once each |
| RealmFirewall.DeployEffect | agent/realm_plugin.py:583-624 | a deploy opens, and owns, exactly the new ports when it gets that far, and nothing otherwise |
| RealmFirewall.RulesAreConserved | agent/realm_plugin.py:486-532 | over every sequence of deploys, redeploys, failures and removals each rule is pre-existing or owned by exactly one tunnel |
| RealmFirewall.RemovingAllRestoresRules | agent/realm_plugin.py:669-685 | removing every tunnel, in any order, gives back the initial rules |
| RealmFirewall.FailedDeployRestoresExactly | agent/realm_plugin.py:603-655 | a failed deploy restores rules and ownership if and only if it did not fail saving the configuration after adding a rule |
| RealmFirewall.FailedDeployLeaves | agent/realm_plugin.py:573-655 | a failed deploy changes nothing at all, except that a port conflict leaves a new tunnel's empty directory and a failure saving the configuration leaves the tunnel in place |
| RealmFirewall.FailedDeployCanLeaveRule | agent/realm_plugin.py:603-655 | a failed first deploy that leaves its port open |
| RealmFirewall.RemovalKeepsOtherOpen | agent/realm_plugin.py:678-685 | removing a tunnel keeps another one open if and only if it owns none of that one's ports |
| RealmFirewall.RedeployCanCloseAnotherTunnel | agent/realm_plugin.py:519-520 | a run on which it does not |
| RealmFirewall.Agent.RemoveRules | agent/realm_plugin.py:527-532 | the loop deletes exactly the listed rules |
| RealmFirewall.Agent.AllowAll | agent/realm_plugin.py:506-518 | the loop over the ports adds and reports exactly the new ones, or takes back what it added |
| RealmFirewall.Agent.ConfigureUfw | agent/realm_plugin.py:486-524 | all ports open and recorded where new, or nothing changed |
| RealmFirewall.Agent.DeployTunnel | agent/realm_plugin.py:543-655 | deploy with its rollback does exactly the deploy step |
| RealmFirewall.Agent.RemoveTunnel | agent/realm_plugin.py:669-685 | so does remove |
| Rollup.RollupKeepsRowsExact | hub/maintenance_runtime.py:124-137 | rolling up the previous hour writes the aggregate of all its samples: none has been deleted and none is to come |
| Rollup.CycleKeepsExact | hub/maintenance_runtime.py:170-172 | a cycle keeps every rollup row exact, deletions included |
| Rollup.RollupsStayExact | hub/maintenance_runtime.py:124-172 | over every run with a non-decreasing clock each row equals the aggregate of all samples ever recorded for its node and hour |
| Rollup.RowsAreThoseDue | hub/maintenance_runtime.py:124-172 | over every run a rollup row exists if and only if the node has samples in the hour, a cycle of the following hour rolled it up and no cycle found it beyond the retention |
| Rollup.RowsTellTheHour | hub/maintenance_runtime.py:124-137 | and it is the aggregate of the samples that the heartbeats recorded for that hour |
| Rollup.AggregateMeans | hub/maintenance_runtime.py:128-136 | averages are over the values that are not NULL, a maximum is one of them that none exceeds, NULL if there is none |
| Rollup.SelectCounts | hub/maintenance_runtime.py:135 | a group has each sample of the node and hour as often as it was recorded, and no other |
| Rollup.MetricTables.RecordHeartbeat | hub/agent_control_router.py:166 | a heartbeat adds one sample |
| Rollup.MetricTables.DeleteMetricsBefore | hub/maintenance_runtime.py:171 | the deletion keeps, in order, exactly the samples from the cutoff on |
| Rollup.MetricTables.RunCycle | hub/maintenance_runtime.py:170-172 | roll up first, delete afterwards |
| HourlyMetrics.Hourly | hub/nodes_router.py:142-144 | the list comprehension and the sort give the merged rows in order |
| HourlyMetrics.HourlyIsDirectAggregation | hub/nodes_router.py:121-145 | from the cutoff and the retention horizon on, the endpoint lists exactly the hours with samples, each once, in order, with their direct aggregates, and none from before the hour of the cutoff |
| HourlyMetrics.OldHoursAreTheRolledOnes | hub/nodes_router.py:128-145 | hours whose samples are all deleted are listed if and only if they were rolled up, with their direct aggregates |
| Semaphore.PermitsAreConserved | hub/app.py:340-365 | free permits and permits handed out add up to the limit, and each request that has left returned what it was granted |
| Semaphore.BodiesWithinLimit | hub/app.py:340-365 | no interleaving runs more bodies than the limit |
| Semaphore.AllPermitsReturnExactly | hub/app.py:355-365 | once all requests are over each step of the run in which a second cancellation meets a waiter that has acquired, or acquire still returns after it, has cost one permit and nothing else has; all permits are free if and only if there was no such step |
| Semaphore.OneCancellationAbandonsNone | hub/app.py:355-365 | with one cancellation per request none is abandoned |
| Semaphore.SecondCancelLosesPermit | hub/app.py:361-365 | a run that loses a permit |
| Semaphore.SlotGate.ExitWithoutBody | hub/app.py:358-365 | the `finally` block of a request without the slot returns exactly the permit its waiter had, even when acquire wins the race |
| Semaphore.SlotGate.ExitBody | hub/app.py:356-357 | and that of one with the slot releases it once |
| AutoHeal.RestartsPerWindow | agent/agent.py:1728-1747 | over runs whose cycles are merged or restart nothing, any hour-long half-open window holds at most the configured number of restarts, never more than 6 |
| AutoHeal.RestartsAreSpaced | agent/agent.py:1732-1745 | over the same runs, two restarts of one service are at least the cooldown, and a minute, apart |
| AutoHeal.DueIsRestarted | agent/agent.py:1728-1747 | over the same runs, a service that is down and may be restarted is restarted when its last restart is the cooldown, and a minute, ago and fewer restarts than the limit were made in the hour before the cycle and in it |
| AutoHeal.OthersAreLeft | agent/agent.py:1730-1745 | nothing is restarted without such a report, or if the command fails, or while Auto-Heal is off |
| AutoHeal.CycleLog | agent/agent.py:1730-1733 | a cycle restarts what its reports make it restart, and nothing while Auto-Heal is off |
| AutoHeal.CycleIsRememberedExactly | agent/agent.py:231-247 | after a cycle the stored history explains all restarts if and only if the cycle was merged or restarted nothing |
| AutoHeal.UnmergedCycleIsForgotten | agent/agent.py:231-247 | two restarts at once when the state of the first cycle is lost |
| AutoHeal.Healer.MaybeAutoheal | agent/agent.py:1728-1747 | the filter and the loop over the reports do the cycle's step |
| Incidents.TimelineExplainsRows | hub/app.py:525-579 | after any steps, reading the event log gives each row's status, and its resolved time exactly while it is resolved |
| Incidents.StepMeans | hub/monitor_incident_service.py:149-213 | row by row, a step changes only the status of the incident it names, and only from the statuses it may; a detection adds one if none is active; a note is kept |
| Incidents.ReopenBetweenResolutions | hub/monitor_incident_service.py:194-213 | two resolved entries of an incident have a reopened one between them |
| Incidents.ReopenKeepsOneActiveExactly | hub/monitor_incident_service.py:203-213 | a reopen keeps one active incident per tunnel if and only if the tunnel has no other |
| Incidents.OneActiveOverRuns | hub/agent_control_router.py:249-259 | without such reopens no tunnel has two active incidents |
| Incidents.ReopenCanDouble | hub/monitor_incident_service.py:203-213 | a run with two |
| Incidents.IncidentTables.Create | hub/app.py:540-559 | looking first, then inserting row and entry, is the detection step |
| Incidents.IncidentTables.ResolveIncident | hub/app.py:562-579 | the guarded UPDATE adds its entry only when it changed the row |
| Incidents.IncidentTables.Act | hub/monitor_incident_service.py:177-213 | each operator action does its step or is refused without change |
| Incidents.IncidentTables.AddIncidentNote | hub/monitor_incident_service.py:149-164 | a note changes no status |
| Heartbeat.RowsMatchHistory | hub/agent_control_router.py:210-260 | over every run of heartbeats of all nodes a row's streak is the trailing run of down and degraded reports since it was created, and, untouched by an operator, it has an active incident exactly when some report qualified and none since was healthy |
| Heartbeat.IncidentOpensExactly | hub/agent_control_router.py:247-257 | a report opens an incident if and only if there is none and the run it ends has length 2 for down, 3 for degraded |
| Heartbeat.OneActivePerTunnel | hub/agent_control_router.py:249-259 | no tunnel has two active incidents without an operator's reopen |
| Heartbeat.InventoryAfterBeat | hub/agent_control_router.py:261-280 | after a fresh heartbeat the node's rows are the managed names reported; others only add or update; other nodes are untouched |
| Heartbeat.NamesAreCut | hub/agent_control_router.py:214 | names are cut to 128 characters, so reports that agree on these are of one row |
| Heartbeat.TunnelTable.StoreReport | hub/agent_control_router.py:210-260 | one turn of the loop does the report step |
| Heartbeat.TunnelTable.StoreHeartbeat | hub/agent_control_router.py:210-280 | the loop and the deletion do the heartbeat step |
| TunnelIncidents.ReportKeepsCount | hub/agent_control_router.py:246-260 | a report changes the count of active incidents kept with a tunnel as it changes the incident rows, whichever the look-up returns |
| TunnelIncidents.OperatorKeepsCount | hub/monitor_incident_service.py:177-213 | so does a resolution or a reopen by hand |
| Pressure.ActiveExactlyWhileRaised | hub/agent_control_router.py:177-196 | a resource incident is active if and only if some sample reached the limit and all later ones were at least nine tenths of it |
| Pressure.LimitsOneByOne | hub/agent_control_router.py:177-196 | each of the nine limits raises its alarm, nine tenths of it keep it and less clears it |
| PressureIncidents.AlarmsAreIncidents | hub/agent_control_router.py:184-196 | over every run of heartbeats and of all other steps on the incident tables, without a doubling reopen, a resource is alarmed if and only if an active incident bears its title, and at most one does |
| PressureIncidents.StepTellsExactly | hub/monitor_incident_service.py:177-213 | a step by hand or of another handler keeps that if and only if it is no reopen of a resolved pressure incident whose resource has another active one |
| PressureIncidents.IncidentsFollowReadings | hub/agent_control_router.py:177-196 | left alone, the tables have one active incident of a resource while some sample reached the limit and all later ones were at least nine tenths of it, and none otherwise |
| Pressure.ResourceIncidents.CheckLimits | hub/agent_control_router.py:184-196 | the loop over the nine limits does the step for each |
| Discovery.CompleteSnapshotIsRecent | agent/agent.py:738-749 | a snapshot returned as complete was found less than a minute before the call and lists exactly what that scan saw |
| Discovery.WholeInventoryExactly | agent/agent.py:757-825 | a complete scan lists every tunnel of the host that it could describe if and only if each is shown by a listing that succeeded or a directory and fewer than 256 candidates precede it |
| Discovery.TunnelIsListedExactly | agent/agent.py:757-825 | on a host with at most 256 tunnels a complete scan lists one that it could describe if and only if a listing that succeeded or a directory shows it |
| Discovery.CallEndsExactly | agent/agent.py:738-940 | a call uses a cache of less than a minute, or repeats what is known as incomplete after a broken scan without candidates, or replaces the cache: complete if and only if the scan was not broken, saw the connections and could show every unit it looked at |
| Discovery.FoundExactly | agent/agent.py:825-866 | the result lists what was seen, and the known entry of each unit that could not be shown |
| Discovery.LastCandidateIsMissed | agent/agent.py:825 | a complete scan of 257 tunnels that does not list the last |
| Discovery.FailedListingDropsTunnel | agent/agent.py:761-775 | two scans of one host, the second with a failed listing beside one that succeeded: both count as complete and the second has lost the tunnel |
| Discovery.CallsKeepSound | agent/agent.py:738-940 | after any calls of any threads, a cache marked complete holds exactly what the scan it came from saw |
| Discovery.FlagAgreesExactly | agent/agent.py:815-816 | the flag read later differs from the completeness of the snapshot in exactly two cases: the scan fell short and the cache is complete nonetheless, or another call has replaced a complete cache by an incomplete one |
| Discovery.Discoverer.DiscoverTunnels | agent/agent.py:738-940 | reuse, early return and the loop over the candidates do the discovery step |
| Inventory.HubTrustsExactly | hub/app.py:1718-1733 | the Hub takes an Agent's heartbeat as authoritative if and only if it is complete, stamped and at most 90 whole seconds old |
| Inventory.TrustedUntil | agent/agent.py:1857-1869 | over every run a heartbeat sent as complete is trusted until 91 seconds after the second of its merge, and then no more |
| Inventory.ReportsExactly | agent/agent.py:969-977 | a collection reports the configured tunnels and each discovered one that is not among these by name and service |
| Inventory.CollectionUsesOtherCalls | agent/agent.py:748-749 | a collection that begins within a minute of another thread's scan reports what that found |
| Inventory.MergedOnce | agent/agent.py:1834-1852 | a collection is merged once |
| Inventory.DeletionIsSafe | agent/agent.py:1857-1869 | over every run of the Agent's process, rows are deleted only by a heartbeat sent as complete and merged less than 91 seconds before; it rests on a complete and recent scan if and only if its flag does not mislead, and leaves exactly the managed names it reports |
| Inventory.TrustIsDeservedExactly | agent/agent.py:231-234 | a payload sent as complete rests on a complete scan less than a minute old at its collection if and only if its flag does not mislead |
| Inventory.DiscoveryAge | agent/agent.py:1857-1869 | then what a trusted heartbeat leaves was discovered less than 151 seconds before, plus the time the collection took |
| Inventory.StaleInventoryIsTrusted | agent/agent.py:815-816 | a run on which a failed scan is sent as complete and fresh, however old the list, and a tunnel deployed since loses its row |
| Inventory.AlmostNinetyOneSeconds | agent/agent.py:1857-1862 | a heartbeat trusted 90.9 seconds after its merge |
| Inventory.LegacyHeartbeats | hub/app.py:1718-1733 | heartbeats without the marker are trusted by their status alone |
| Inventory.MarkerWords | hub/app.py:1729-1730 | markers sent as text count by the words for yes, in any case and with space around |
| Inventory.OffMarker | hub/app.py:1729-1730 | other words do not count |
| Inventory.StatusesWithoutMarker | hub/app.py:1725-1726 | without a marker a heartbeat is incomplete while starting, collecting or stale |

## Left out

- Rollback.VenvUndoneRestores: says nothing about a virtualenv whose flags neither kept up nor lagged behind, because no run produces one.
- Agreement.EndsAgree: does not cover runs on which a job fails and leaves its tunnel, an installed tunnel is reconfigured or a retry skips a completed removal, where an orderly step breaks its invariant (`PlainStepsExactly`), nor runs on which a job touches another row's tunnel (`RevivalTrap`, `StrayJobTraps`).
- Agreement.EndsAgreeUnlessParted: what it asks of a removal's result compares this node after it with the other one, because a removal that failed beside it may have left either.
- HubState.InstalledAfter: the work of a job counts from its accepted result, so what a job has half done on its node, or has done again after its lease lapsed, is not seen in between.
- Effects.OneCheckPerRun: the retention deletes old rows of `monitor_results` (hub/maintenance_runtime.py:174, hub/runtime_config.py:37); the model keeps every row ever written.
- JobLease.RenewalsKeepLease: the Agent's loop is its timing, as a hypothesis on the run; an Agent that waits longer, or gives up after a refused renewal, is outside it.
- Activation.Activate: the calls of the rollback and of its clean-up succeed; after success a cancelled removal does not keep the next one from being tried, as it does in hub/app.py:1184-1195; stopping and restoring the service is not modelled; other transactions change the row before the activation in the database or between that and the completion, not between completion and rollback.
- Discovery.Discoverer.DiscoverTunnels: one call is one step, so two scans that overlap in time are put in some order.
- FleetRollout.RunKeepsInv: a restart of the Hub ends the run; hub/database_bootstrap.py:82-90 then fails the running items without a job and finalises the operation, whose scheduled items stay scheduled.
- HubStore.Store.DeliverResult: latency and detail of a check, certificate rows, monitor incidents and notifications.
- HourlyMetrics.HourlyIsDirectAggregation: averages are sum and count of the non-NULL values, and swap and uptime, which rollups do not keep, are not covered.
- Rollup.RollupsStayExact: tables that start empty, and node deletion, which cascades to samples, does not occur.
- FleetRollout.ReturnedStatusExactly: provisioning itself succeeds or fails; an exception that leaves gather early is not modelled.
- Incidents.OneActiveOverRuns: incidents without a tunnel are created as their handlers ask for them; their look-up by title is modelled in `PressureIncidents` and not for monitors and offline nodes.
- RealmFirewall.Agent.ConfigureUfw: `ufw` stays installed, deleting a rule succeeds, a failed command has no effect and nobody else edits rules or ownership files, so an unreadable ownership file does not occur.
- Inventory.HubTrustsExactly: case folding is that of ASCII text.
- The permission, certificate, reachability and settings checks of the deployment handlers are one parameter, `permitted`.
- Job payloads are tags: a deployment's job names its row and side, from which plugin and name are read, a removal without a row names plugin and tunnel; JSON encoding is not modelled.
- Pair Code (hybrid) deployments, which have one side only and may share names and tunnels with managed ones.
- The 90-day purge of finished jobs, node deletion and node renames: they break links or titles that the invariants rely on.
- Editing monitors, the monitor scheduler and the branch for secrets that cannot be decrypted.
- Names with a random part (operation ids, backup and failed paths) are taken to be fresh.
- A second cancellation during a shielded rollback, and other users of the remote host.
- The restart of an Agent between saving and loading its state file; wall clocks that go back, except in the Hub's reading of telemetry ages.
- The text of rendered configurations apart from ports and addresses: log levels, profiles, transports, TLS options, IPv6 brackets.
- The raw resolution of the metrics endpoint, tunnel samples, services and plugin inventory of heartbeats.
- User interface, WebSockets, terminal, SSH and HTTP transport, cryptography, login and path protection.
