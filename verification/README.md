# Verification of the GitOps Service's reconcilers and event loops

A Dafny model of the stateful parts of the GitOps Service (`managed-gitops`): the task retry loop, the
DeploymentTargetClaim / DeploymentTarget / SpaceRequest protocol, the database reconciler's paging
cleaners, the event routers, the SnapshotEnvironmentBinding reconcile, promotion runs, and two
incremental aggregates. `dafny verify dfyconfig.toml` checks everything.

## How it is modelled

- **Task retry loop** (`RetryLog`, `Backoff`, `TaskRetryLoop`). A class with the loop's own fields and one
  method for the scheduling pass and for each message handler. Ghost fields hold the runners in flight
  and a log of what happened. Every method keeps `Valid()`: the map and the list of waiting tasks agree,
  the active names are exactly the runners, and the log is `Legal`. What the loop promises over whole
  runs is then proved about every legal log.
- **Claim protocol** (`DeploymentTargets`, `ClaimProtocol`, `ClaimSafety`, `ClaimRelease`, `ClaimProgress`,
  `ClaimProvisioning`, `ClaimOutcomes`, `TargetOutcomes`). Three reconcilers over maps of objects. A step is
  what a reconciler reads since its last write, together with its next write; steps interleave freely with
  those of the other reconcilers, users and foreign controllers, and every reconcile may stop before any
  step. An update succeeds only while the object is still the one that was read. The invariant is `Inv`;
  `Quiet` says what everybody but the claim worker may change.
- **Database reconciler** (`Paging`, `DbReconciler`). A table is a sequence in `seq_id` order. `CleanFrom`
  is what a pass leaves when the offset advances by a full batch although rows below it are gone.
- **Event routing** (`EventRouting`, `WorkspaceRouter`, `ControllerRouter`). The workspace router is a class
  with the source's two maps. Messages sent and not yet received are a multiset, so any delivery order is
  covered. A ghost ledger says where each event is; `Conserved` says that it really is there.
- **SnapshotEnvironmentBinding** (`AppStudioLabels`, `DeploymentNames`, `BindingReconcile`,
  `BindingReconciler`, `BindingPairs`, `BindingConditions`). The reconciler's methods change a map of
  GitOpsDeployments, with API calls that may fail for some names. `BindingPairs` is about two bindings whose
  reconciles take turns.
- **Promotion runs** (`Promotion`, `PromotionOrder`, `PromotionProgress`, `PromotionResults`). A state machine
  over API writes, like the claim protocol, for the runs and bindings of all namespaces. A run has a uid, and the births of
  all runs are remembered, so that an object created again under an old name is told apart.
- **Aggregates** (`ResourceStates`, `DeploymentMetrics`). Classes with the source's fields.

Reads of the cluster and the database, clocks, random draws and list orders are parameters or choices
left open.

## Where the code differs from its comments

- `db_reconciler.go:1179` and `:1255` say that batches are fetched until all entries are processed. They
  are not: `Paging.TwoFullBatchesLeaveOne`. `Paging.OnePassClearsIff` says exactly when they are, and
  `Paging.HalvingBound` what a pass always achieves.
- `metrics.go:46` says at most 5,000 deployments are tracked. It is 5,001: `DeploymentMetrics.LimitIsExceeded`.
  `DeploymentMetrics.StaysWithinLimitIff` says exactly which step exceeds the limit.
- `metrics.go:122` sets both gauges before it takes the mutex, so calls in between can leave them wrong, the one
  of failures for good: `DeploymentMetrics.ClearIsRightIff`, `DeploymentMetrics.FailureOutlivesClear`.
- `promotionrun_controller.go:299` says that a deployment must be Synced and Healthy, but line 300 waits only for
  one that is Synced and not Healthy. One that is OutOfSync and Degraded lets the promotion complete with
  Success: `PromotionProgress.UnhealthyRunSucceeds`. Success says that all are Synced and Healthy exactly if all
  are Synced: `PromotionProgress.SuccessIsTrueIff`.
- `promotionrun_controller.go:330` reads the run again by its name only. A run created again under its name in the
  meantime is completed with Success and never writes its binding: `PromotionResults.ReusedRunSucceeds`. That is
  the only way: `PromotionResults.SuccessIsPromotedIff`.
- `promotionrun_controller.go:401` says that only one promotion is active on an application at a time.
  With equal creation timestamps two can be: `PromotionOrder.BothPassIff`,
  `PromotionProgress.EqualTimesOverlap`.
- The gate of line 404 compares the names of applications across all namespaces, so that a run of another
  namespace can keep one out for good: `PromotionResults.KeptOut`, `PromotionResults.CanCompleteWithinIff`.
- A binding can be written for a promotion run that has been deleted since it passed the gate:
  `PromotionProgress.DeletedRunWrites`. That is the only way in which the writer is not the oldest incomplete
  run: `PromotionOrder.OnlyTheOldestWrites`.
- The ten-minute limit of a promotion is not enforced while its snapshot or a deployment is missing, since the
  reconcile returns before it looks at the time: `PromotionProgress.ReconcileCompletesIff` and
  `PromotionProgress.MissingKeepsWaiting`.
- A PromotionRun that is automated or names no environment never completes and blocks its application, and
  no other run is stuck for good: `PromotionProgress.CanCompleteIff`, `PromotionProgress.UnsupportedRunBlocks`.
- `snapshotenvironmentbinding_controller.go:515` generates names that can coincide for two components:
  `DeploymentNames.NamesCollideIff`, `BindingReconcile.NamesAreDistinctIff`. The reconcile converges exactly
  if they do not: `BindingReconcile.ReconcileConvergesIff`. Names of different bindings can coincide, too:
  `DeploymentNames.NamesCollideAcross`. Two bindings settle exactly if they expect the same wherever that
  happens: `BindingPairs.PairConvergesIff`, `BindingPairs.GeneratedPairConvergesIff`.

## Model

| member | source | states |
|---|---|---|
| ExponentialBackoffs.NthDelay | backend-shared/util/util.go:57-86 | from an untouched backoff, the n-th delay in a row is min(Max, Min·Factor^(n-1)) without jitter, and between that and min(Max, Min·(1.1·Factor)^(n-1)) with jitter |
| ExponentialBackoffs.NthDelayAfterReset | backend-shared/util/util.go:53-86 | after Reset the curve starts one point later: the first delay is Min·Factor |
| ExponentialBackoffs.IncreaseMovesAlongCurve | backend-shared/util/util.go:64-86 | one increase moves from one point of the curve to the next, whatever the random draw |
| ExponentialBackoffs.JitterCovers | backend-shared/util/util.go:70-73 | jitter can stretch the growth of a delay by every part of up to a tenth |
| ExponentialBackoffs.ExponentialBackoff.IncreaseDueToFail | backend-shared/util/util.go:64-86 | the method on the mutable struct computes the step that the law is proved about |
| ExponentialBackoffs.ExponentialBackoff.IncreaseAndReturnNewDuration | backend-shared/util/util.go:59-62 | returns the delay after the increase |
| ExponentialBackoffs.ExponentialBackoff.Reset | backend-shared/util/util.go:53-55 | the current delay is Min again |
| RetryLog.EveryAddIsFollowedByARun | backend-shared/util/task_retry_loop.go:179-190 | no lost work: after an add, also a duplicate one, the name is waiting until a run of it starts |
| RetryLog.RetryLeavesNameWaiting | backend-shared/util/task_retry_loop.go:358-370 | a completion that asks for a retry leaves its name waiting, until a later run |
| RetryLog.EveryRunWasAskedFor | backend-shared/util/task_retry_loop.go:262-268 | a waiting name was queued since its last start, so no run starts unasked |
| RetryLog.RunsOfOneNameNeverOverlap | backend-shared/util/task_retry_loop.go:256-260 | between two starts of one name there is a completion |
| RetryLog.AtMostTwentyRunning | backend-shared/util/task_retry_loop.go:222-263 | never more than 20 runs at once |
| RetryLog.NotQueuedTwice | backend-shared/util/task_retry_loop.go:179-190 | a name is not queued twice without being started in between |
| RetryLog.NoEarlyRetry | backend-shared/util/task_retry_loop.go:248-263 | no retry starts before its scheduled time |
| RetryLog.DelayLaw | backend-shared/util/task_retry_loop.go:358-369 | the backoff law through the loop: the n-th straight retry is due a delay on the n-th point of the curve after the completion, within [Min, Max] |
| TaskRetryLoops.EligibleTasksAre | backend-shared/util/task_retry_loop.go:244-260 | the eligible tasks are those without a time or past it that are not running; distinct names stay distinct |
| TaskRetryLoops.EligibleTasksKeepOrder | backend-shared/util/task_retry_loop.go:238-260 | they are in list order |
| TaskRetryLoops.WithoutKeepsOrder | backend-shared/util/task_retry_loop.go:278-286 | what a pass leaves waiting is a subsequence that keeps its order |
| TaskRetryLoops.PassLeavesNothingRunnable | backend-shared/util/task_retry_loop.go:238-288 | after a pass 20 tasks are active or nothing that waits is due and inactive |
| TaskRetryLoops.DueTasksStart | backend-shared/util/task_retry_loop.go:238-288 | after a pass 20 tasks run, or every task that was not running and has no time or is past it runs, and waits no longer |
| TaskRetryLoops.PassIsFair | backend-shared/util/task_retry_loop.go:238-288 | of the tasks that are due the first ones start; a task that is not due is not started; and exactly those that are due and not started, or not due, go on waiting |
| TaskRetryLoops.TaskRetryLoop.StartNewTask | backend-shared/util/task_retry_loop.go:383-403 | moves one task from the waiting map to the active map and starts its runner |
| TaskRetryLoops.TaskRetryLoop.StartWithSanityChecks | backend-shared/util/task_retry_loop.go:263-276 | the SEVERE checks on the sizes of both maps never fire |
| TaskRetryLoops.TaskRetryLoop.SchedulePass | backend-shared/util/task_retry_loop.go:238-288 | the scan with its in-place updates starts exactly the first min(free slots, eligible) eligible tasks in order and keeps the rest in order; so every task that was not running and has no time or is past it runs afterwards and waits no longer, or 20 tasks run |
| TaskRetryLoops.TaskRetryLoop.HandleAddTask | backend-shared/util/task_retry_loop.go:294-309 | appends the task at the end unless its name is waiting; the name is waiting afterwards |
| TaskRetryLoops.TaskRetryLoop.HandleWorkCompleted | backend-shared/util/task_retry_loop.go:334-371 | a runner's completion finds its entry, frees the slot, and queues the retry with its increased backoff |
| TaskRetryLoops.CompletionRequeues | backend-shared/util/task_retry_loop.go:353-371 | a completion frees exactly the slot of its task, and a retry comes last in the list with the same task, its increased backoff, and a time that much later, unless its name is waiting |
| RetryLog.StrayIff | backend-shared/util/task_retry_loop.go:342-346 | a completion is reported as not found exactly if no run of its name is going on |
| TaskRetryLoops.TaskRetryLoop.HandleMessage | backend-shared/util/task_retry_loop.go:226-380 | one turn, a pass and a message: the log only grows, a task asked for is waiting afterwards, a completion is logged once, and an error is logged exactly for a completion without a running task |
| TaskRetryLoops.TaskRetryLoop.Run | backend-shared/util/task_retry_loop.go:226-381 | any sequence of messages, at any times, keeps map, list, runners and log in agreement; every task asked for is waiting at the end or was started after it was asked for; every completion is logged; and errors are logged once for each completion without a running task and for nothing else |
| ClaimSafety.InvAlways | appstudio-controller/controllers/appstudio.redhat.com/deploymenttargetclaim_controller.go:144-606 | the protocol invariant holds after every run, with every reconcile cut anywhere |
| ClaimSafety.ExclusiveBinding | appstudio-controller/controllers/appstudio.redhat.com/deploymenttargetclaim_controller.go:394-453 | two claims that carry bind-complete never name the same existing target |
| ClaimSafety.OthersAreQuiet | appstudio-controller/controllers/appstudio.redhat.com/deploymenttarget_controller.go:134-297 | the target and SpaceRequest reconcilers, users and foreign controllers never free a target, redirect a reference or take a claim's binder finalizer |
| ClaimSafety.TargetReconcilerIsQuiet | appstudio-controller/controllers/appstudio.redhat.com/deploymenttarget_controller.go:134-297 | the same for the target reconciler alone |
| ClaimSafety.RequestReconcilerIsQuiet | appstudio-controller/controllers/appstudio.redhat.com/spacerequest_controller.go:61-158 | the same for the SpaceRequest reconciler, which may create targets |
| ClaimProgress.ReuseBreaksExclusion | appstudio-controller/controllers/appstudio.redhat.com/deploymenttargetclaim_controller.go:582-606 | a run that creates a bound target again, by name, ends with two claims bound to it: the assumption of ExclusiveBinding is needed |
| ClaimRelease.ReleaseOrder | appstudio-controller/controllers/appstudio.redhat.com/deploymenttargetclaim_controller.go:299-392 | a bound claim loses its binder finalizer only once its target is absent, or unreferenced, Released (or Failed since) and, under Delete, marked for deletion; and there was a moment at which it was Released or absent while the claim named it |
| ClaimRelease.TargetFinalizerOrder | appstudio-controller/controllers/appstudio.redhat.com/deploymenttarget_controller.go:204-230 | a target loses its finalizer only while being deleted and, under Delete, when no environment-tier SpaceRequest carries its label, or that of its claim if none carries the target's |
| ClaimRelease.OnlyDropFinalizerDrops | appstudio-controller/controllers/appstudio.redhat.com/deploymenttargetclaim_controller.go:383-389 | nothing but the last step of a claim's deletion removes the binder finalizer |
| ClaimRelease.OnlyTargetReconcilerDrops | appstudio-controller/controllers/appstudio.redhat.com/deploymenttarget_controller.go:222-229 | nothing but the target reconciler removes the target finalizer |
| ClaimProgress.FreeTargetIsBound | appstudio-controller/controllers/appstudio.redhat.com/deploymenttargetclaim_controller.go:199-221 | uninterrupted, a claim that finds a suitable target (class, phase, credentials and reference as above) ends complete and Bound to it, the target is Bound, and nothing else changes |
| ClaimOutcomes.SearchBindsIff | appstudio-controller/controllers/appstudio.redhat.com/deploymenttargetclaim_controller.go:199-230 | an uninterrupted reconcile of a claim that names no target ends with the claim bound to the target that the search yields, which is one of its class that is Available or without phase, has credentials, and has no reference or one to the claim (one to the claim if it is marked for provisioning); if no target is like that, and only then, it ends unbound and Pending, and marked if it has a class |
| ClaimOutcomes.OnlySuitableIsNamed | appstudio-controller/controllers/appstudio.redhat.com/deploymenttargetclaim_controller.go:548-606 | whatever is done in whatever state, a claim that starts to name a target named none, and the target is like that at that moment; the name never changes again |
| ClaimOutcomes.NamedTargetIsBoundIff | appstudio-controller/controllers/appstudio.redhat.com/deploymenttargetclaim_controller.go:232-295 | an uninterrupted reconcile of a claim that names a target binds the two exactly if the target references the claim, or references none and is of its class, Available or without phase, and has credentials; otherwise the claim becomes Pending if there is no such target or it references another claim, and stays as it was if it references none |
| ClaimOutcomes.ProvisioningDecides | appstudio-controller/controllers/appstudio.redhat.com/deploymenttargetclaim_controller.go:176-183 | what a Pending, marked claim of a class comes to first: nothing more if its class is not there; a SpaceRequest if its class is of the dev sandbox and it has none; in all other cases the reconcile goes on |
| ClaimProgress.CompleteClaimFollowsTarget | appstudio-controller/controllers/appstudio.redhat.com/deploymenttargetclaim_controller.go:457-515 | a complete claim becomes Lost without its target; with it, both are Bound again; its provisioner annotation follows its class |
| ClaimOutcomes.ConflictChangesNothing | appstudio-controller/controllers/appstudio.redhat.com/deploymenttargetclaim_controller.go:488-491 | a complete claim whose target references another claim stays as it is, up to its annotation |
| ClaimOutcomes.ReferenceIsFollowed | appstudio-controller/controllers/appstudio.redhat.com/deploymenttargetclaim_controller.go:694-732 | a complete claim that names no target follows the only one that references it; without one it is Lost, and with several it stays, up to its annotation |
| ClaimProgress.ClaimWaitsForNamedTarget | appstudio-controller/controllers/appstudio.redhat.com/deploymenttargetclaim_controller.go:232-276 | a claim that names an absent target, or one that references another claim, becomes Pending and changes nothing else |
| ClaimProgress.BoundTargetIsReleased | appstudio-controller/controllers/appstudio.redhat.com/deploymenttargetclaim_controller.go:299-392 | uninterrupted, the deletion of a bound claim leaves its target unreferenced, Released, and marked for deletion exactly under Delete, and drops the claim's finalizer |
| ClaimOutcomes.BoundClaimLetsGoIff | appstudio-controller/controllers/appstudio.redhat.com/deploymenttargetclaim_controller.go:299-392 | a deleted claim that is Bound loses its finalizer exactly if its target is gone, or references no other claim, has its class, and has or can get its finalizer; then the target is let go, and otherwise both stay as they are |
| ClaimOutcomes.UnboundClaimLetsGo | appstudio-controller/controllers/appstudio.redhat.com/deploymenttargetclaim_controller.go:309-389 | a deleted claim that is not complete or not Bound loses its finalizer at once, and no target is touched |
| ClaimProvisioning.ClaimIsMarked | appstudio-controller/controllers/appstudio.redhat.com/deploymenttargetclaim_controller.go:517-542 | without a suitable target a claim is annotated with its class as provisioner and Pending |
| ClaimProvisioning.RequestIsCreated | appstudio-controller/controllers/appstudio.redhat.com/deploymenttargetclaim_controller.go:161-183 | a Pending claim marked for provisioning, of a dev sandbox class and without a SpaceRequest, gets one, with or without its finalizer and whatever its annotation says; if it names no target and none is there for it, it goes on waiting with its annotation set to its class |
| ClaimProvisioning.TargetIsCreated | appstudio-controller/controllers/appstudio.redhat.com/spacerequest_controller.go:122-155 | a ready SpaceRequest of a claim without a target gets an Available one that references the claim, with its class and the credentials of the request, and the label of it |
| ClaimProvisioning.DynamicProvisioningBinds | appstudio-controller/controllers/appstudio.redhat.com/deploymenttargetclaim_controller.go:144-297 | end to end across the reconcilers: a claim nothing matches ends bound to the target made for it, and no other object is touched |
| ClaimProvisioning.SpaceRequestIsDeleted | appstudio-controller/controllers/appstudio.redhat.com/deploymenttarget_controller.go:241-268 | a deleting target under Delete first protects, then deletes its SpaceRequest |
| ClaimProvisioning.DeprovisioningRemovesAll | appstudio-controller/controllers/appstudio.redhat.com/deploymenttarget_controller.go:204-268 | across the reconcilers, deleting a claim under Delete takes its provisioned target and SpaceRequest away and leaves everything else alone |
| ClaimProvisioning.ProvisioningRoundTrip | appstudio-controller/controllers/appstudio.redhat.com/deploymenttargetclaim_controller.go:144-392 | provisioning, binding and deleting a claim leaves targets and SpaceRequests exactly as they were |
| ClaimProvisioning.LastingFailureIsReported | appstudio-controller/controllers/appstudio.redhat.com/deploymenttarget_controller.go:270-290 | the target becomes Failed exactly when termination has failed for long enough |
| TargetOutcomes.LiveTargetIsFreedIff | appstudio-controller/controllers/appstudio.redhat.com/deploymenttarget_controller.go:149-209 | a target that is not being deleted gets its finalizer, and loses its reference exactly if its class says Retain and the claim that it references is gone |
| TargetOutcomes.DeletedTargetGoesIff | appstudio-controller/controllers/appstudio.redhat.com/deploymenttarget_controller.go:211-230 | a deleted target that no SpaceRequest stands for, or whose class does not say Delete, loses its finalizer exactly if its class says Retain or Delete |
| TargetOutcomes.DeletedTargetWaits | appstudio-controller/controllers/appstudio.redhat.com/deploymenttarget_controller.go:241-295 | a deleted target under Delete protects the SpaceRequest that stands for it, deletes it once that has a Ready condition, and becomes Failed exactly if the deleted request cannot be terminated and the time is up |
| TargetOutcomes.RequestIsDeletedIff | appstudio-controller/controllers/appstudio.redhat.com/spacerequest_controller.go:95-120 | a SpaceRequest is deleted if its claim is gone and the dev sandbox class says Delete; one that is not ready, or has not one namespace, is left alone |
| TargetOutcomes.UsableRequestGetsTarget | appstudio-controller/controllers/appstudio.redhat.com/spacerequest_controller.go:122-157 | a ready SpaceRequest is labelled with the target of its claim, which is created, of the class of the claim, if there is none |
| Paging.BatchDeletes | backend/eventloop/db_reconciler.go:1205-1226 | a batch deletes its orphans and nothing else |
| Paging.PassDeletesOnlyOrphans | backend/eventloop/db_reconciler.go:1178-1230 | a pass terminates, deletes only orphans, and keeps everyone else in order |
| Paging.SkippedNeverOutnumberDeleted | backend/eventloop/db_reconciler.go:1228-1229 | the orphans that slip under the offset never outnumber the rows deleted |
| Paging.HalvingBound | backend/eventloop/db_reconciler.go:1178-1230 | a pass deletes at least half of the orphans it started with |
| Paging.RepeatedPassesReachZero | backend/eventloop/db_reconciler.go:1178-1230 | fewer than 2^n orphans are gone after n passes, and only they |
| Paging.PassIsWindows | backend/eventloop/db_reconciler.go:1178-1230 | the pass in coordinates of the original table: a cleaned window of 100 rows, then a gap as long as the orphans it had, and so on |
| Paging.OnePassClearsIff | backend/eventloop/db_reconciler.go:1178-1203 | one pass processes every orphan exactly if no gap holds one |
| Paging.TwoFullBatchesLeaveOne | backend/eventloop/db_reconciler.go:1178-1203 | 200 orphans leave 100: the halving bound is tight |
| DbReconciler.Collect | backend/eventloop/db_reconciler.go:1420-1457 | over an unchanging table a paged collector returns exactly the ids of the whole table |
| DbReconciler.Table.CleanRows | backend/eventloop/db_reconciler.go:1205-1226 | the inner loop with its deletes leaves the batch without the removable rows, and reports an error exactly if a DELETE failed |
| DbReconciler.Table.CleanOrphans | backend/eventloop/db_reconciler.go:1178-1232 | the outer loop refines the pass that the halving bound is proved about; if it reports no error it leaves what a pass without failures leaves, and if it does some DELETE fails |
| DbReconciler.Table.DeleteDbEntry | backend/eventloop/db_reconciler.go:546-601 | deletes the row with the id, or reports an error and changes nothing |
| DbReconciler.Database.CleanClusterUsers | backend/eventloop/db_reconciler.go:1156-1233 | no user in use, special or younger than an hour is deleted, and at least half of the disposable ones whose DELETE succeeds are |
| DbReconciler.Database.CleanClusterCredentials | backend/eventloop/db_reconciler.go:1236-1306 | the same for credentials used by managed environments or engine clusters |
| EventRouting.ConservedAlways | backend/eventloop/workspace_event_loop.go:234-371 | in every reachable state each event is in exactly one place and is really there |
| EventRouting.EveryEventHasOnePlace | backend/eventloop/workspace_event_loop.go:257-371 | from its arrival on an event is queued once, held once, accepted, superseded, delegated or dropped, and only one of these |
| EventRouting.EntryStays | backend/eventloop/workspace_event_loop.go:257-371 | an event that was accepted, superseded, delegated or dropped stays so |
| EventRouting.DeliveryOutcome | backend/eventloop/workspace_event_loop.go:323-369 | a rejected event is requeued exactly once and its loop leaves the map; an accepted one is with the loop of its deployment; other loops stay |
| EventRouting.SyncRunGoes | backend/eventloop/workspace_event_loop.go:498-576 | where a SyncRun goes: to the loop of its GitOpsDeployment if that exists, or of the one recorded for it if the SyncRun is gone; it is held if its GitOpsDeployment is missing, and dropped, each with its own reason, if one of the two cannot be read or nothing is recorded; no slot changes but that of a held one |
| EventRouting.OtherEventGoes | backend/eventloop/workspace_event_loop.go:281-321 | an event about a GitOpsDeployment goes to its loop and frees what is held for it if it can be read; credentials and managed environments are handed on, and anything else is dropped |
| EventRouting.WorkCompleteIsDropped | backend/eventloop/workspace_event_loop.go:268-272 | a message of the wrong kind is dropped first |
| EventRouting.DeploymentFreesOrphans | backend/eventloop/workspace_event_loop.go:611-660 | once a GitOpsDeployment can be read, every SyncRun held for it is requeued once, and no other |
| EventRouting.OrphanTakesSlot | backend/eventloop/workspace_event_loop.go:560-574 | a SyncRun whose GitOpsDeployment is missing is held, superseding the event of the same SyncRun held there |
| EventRouting.LoopsLeaveForGood | backend/eventloop/workspace_event_loop.go:357-361 | a loop that left the map is never addressed again |
| EventRouting.DeadLoopsLeaveForGood | backend/eventloop/workspace_event_loop.go:404-434 | a status check takes out exactly the loops that do not accept it, and in no run of the router is one of them addressed again |
| WorkspaceRouters.WorkspaceRouter.ProcessMessage | backend/eventloop/workspace_event_loop.go:234-255 | the handlers, updating both maps in place, do what the transition system does |
| WorkspaceRouters.WorkspaceRouter.HandleEventMessage | backend/eventloop/workspace_event_loop.go:257-371 | the order of checks: bad type, unorphaning, delegation, SyncRun lookup, delivery |
| WorkspaceRouters.WorkspaceRouter.CheckIfOrphaned | backend/eventloop/workspace_event_loop.go:498-576 | the deployment of a SyncRun, or none: dropped with its reason, or held |
| WorkspaceRouters.WorkspaceRouter.UnorphanResources | backend/eventloop/workspace_event_loop.go:611-660 | the loop over the held events requeues each of them once |
| WorkspaceRouters.WorkspaceRouter.CheckStatus | backend/eventloop/workspace_event_loop.go:404-434 | the loop over the map with its deletes keeps exactly the live loops |
| ControllerRouters.RouteAll | backend/eventloop/controller_event_loop.go:67-108 | each workspace with events has one loop, started once for the namespace of its first event, which got exactly its events in order |
| ControllerRouters.AddressedKeepsOrder | backend/eventloop/controller_event_loop.go:102-106 | two events of one workspace reach its loop in the order in which they came |
| AppStudioLabels.MergingMakesEqual | appstudio-controller/controllers/appstudio.redhat.com/snapshotenvironmentbinding_controller.go:885-918 | merging makes the comparison succeed, is idempotent, and changes nothing exactly if the labels compared equal |
| AppStudioLabels.MergingKeepsOthersIff | appstudio-controller/controllers/appstudio.redhat.com/snapshotenvironmentbinding_controller.go:885-905 | merging keeps the labels of others exactly if what is expected says nothing new about them, as generation ensures |
| AppStudioLabels.MergingRemovesStale | appstudio-controller/controllers/appstudio.redhat.com/snapshotenvironmentbinding_controller.go:893-894 | AppStudio labels that are not expected are gone |
| AppStudioLabels.IsAppStudioIff | appstudio-controller/controllers/appstudio.redhat.com/snapshotenvironmentbinding_controller.go:885-918 | a label is taken for an AppStudio one exactly if its key has "appstudio.openshift.io" in it |
| AppStudioLabels.UpdateWithExpected | appstudio-controller/controllers/appstudio.redhat.com/snapshotenvironmentbinding_controller.go:887-905 | the loops over the cloned maps compute the merge |
| AppStudioLabels.AreLabelsEqual | appstudio-controller/controllers/appstudio.redhat.com/snapshotenvironmentbinding_controller.go:909-918 | true exactly if the AppStudio labels are the same |
| AppStudioLabels.GenerateLabels | appstudio-controller/controllers/appstudio.redhat.com/snapshotenvironmentbinding_controller.go:624-666 | only AppStudio labels: the binding's and those of application, component and environment; none if a value exceeds 63 characters |
| DeploymentNames.NamesCollideIff | appstudio-controller/controllers/appstudio.redhat.com/snapshotenvironmentbinding_controller.go:515-536 | two components of a binding get one name exactly if one has a long name and the other, whose own is too long, a short one that reads the same; hashed names never collide, with digests that are 64 characters without a dash and differ for the two |
| DeploymentNames.NameIsOfThreeKinds | appstudio-controller/controllers/appstudio.redhat.com/snapshotenvironmentbinding_controller.go:515-536 | a name is the long one if that has at most 250 characters, else the short one if that has, and else the first 180 characters of the short one with the digest of the long one |
| BindingReconcile.NamesAreDistinctIff | appstudio-controller/controllers/appstudio.redhat.com/snapshotenvironmentbinding_controller.go:233-266 | so all names of a binding are distinct exactly if no two of its components are confused in that way |
| DeploymentNames.NamesCollide | appstudio-controller/controllers/appstudio.redhat.com/snapshotenvironmentbinding_controller.go:515-536 | it happens for every binding name of 241 to 244 characters |
| DeploymentNames.NamesCollideAcross | appstudio-controller/controllers/appstudio.redhat.com/snapshotenvironmentbinding_controller.go:515-536 | bindings "x" and "x-a" share the name "x-a-e-c-d", and so do all of that shape while it fits |
| BindingReconcile.ReconcileConvergesIff | appstudio-controller/controllers/appstudio.redhat.com/snapshotenvironmentbinding_controller.go:268-350 | a reconcile without errors converges exactly if the generated names are distinct, and then another one, in any order, changes nothing |
| BindingPairs.PairConvergesIff | appstudio-controller/controllers/appstudio.redhat.com/snapshotenvironmentbinding_controller.go:268-350 | two bindings, each with distinct names, whose reconciles take turns settle exactly if, where they expect deployments of one name, spec and AppStudio labels are the same: two rounds converge for both from any store, and further ones change nothing; otherwise no store is as both expect |
| BindingPairs.GeneratedPairConvergesIff | appstudio-controller/controllers/appstudio.redhat.com/snapshotenvironmentbinding_controller.go:233-350 | two bindings without confused components so settle exactly if, wherever components of theirs get one name, the same spec and AppStudio labels are generated for both |
| BindingPairs.SharedNameNeverSettles | appstudio-controller/controllers/appstudio.redhat.com/snapshotenvironmentbinding_controller.go:233-350 | two bindings that generate one name for components that differ in application, environment or name never settle |
| BindingPairs.NeighboursNeverSettle | appstudio-controller/controllers/appstudio.redhat.com/snapshotenvironmentbinding_controller.go:515-536 | neither do two bindings named like "x" and "x-a" with components as above |
| BindingReconcile.ProcessedIsInPlace | appstudio-controller/controllers/appstudio.redhat.com/snapshotenvironmentbinding_controller.go:469-513 | a processed deployment has the expected spec and AppStudio labels, and processing changes nothing exactly if it had them |
| BindingReconcile.ProcessedHasWhatIsExpected | appstudio-controller/controllers/appstudio.redhat.com/snapshotenvironmentbinding_controller.go:469-513 | a processed deployment has the expected spec, key by key the expected AppStudio labels, and its other labels as before; it is written exactly if it was missing, its spec differed, or an AppStudio label did; no other is touched |
| BindingReconcile.StaleAreDeleted | appstudio-controller/controllers/appstudio.redhat.com/snapshotenvironmentbinding_controller.go:354-414 | deleted are exactly the deployments owned by the binding and labelled with its application and environment whose component label, empty if missing, is of no kept component |
| BindingReconcile.NoStrangersAfter | appstudio-controller/controllers/appstudio.redhat.com/snapshotenvironmentbinding_controller.go:379-413 | even with colliding names, no owned and labelled deployment is left for another component |
| BindingReconcile.ProcessingKeepsFrame | appstudio-controller/controllers/appstudio.redhat.com/snapshotenvironmentbinding_controller.go:499-506 | processing touches only expected names, and keeps owners and the labels of others |
| BindingReconcilers.GitOpsDeployments.DeleteUnmatchedDeployments | appstudio-controller/controllers/appstudio.redhat.com/snapshotenvironmentbinding_controller.go:352-414 | deletes exactly the deployments owned by the binding, under its labels, of no kept component; after an error it has deleted nothing else |
| BindingReconcilers.GitOpsDeployments.ProcessExpectedDeployment | appstudio-controller/controllers/appstudio.redhat.com/snapshotenvironmentbinding_controller.go:469-513 | creates, updates or leaves; afterwards spec and AppStudio labels are as expected, and it writes exactly if the deployment was missing or one of them was not |
| BindingReconcilers.GitOpsDeployments.GenerateExpected | appstudio-controller/controllers/appstudio.redhat.com/snapshotenvironmentbinding_controller.go:233-266 | a deployment for each component, unless names repeat or one cannot be generated |
| BindingReconcilers.GitOpsDeployments.ProcessAll | appstudio-controller/controllers/appstudio.redhat.com/snapshotenvironmentbinding_controller.go:284-320 | exactly the expected deployments whose API calls do not fail are processed, also after an error; with distinct names all of these are as expected afterwards |
| BindingReconcilers.GitOpsDeployments.Reconcile | appstudio-controller/controllers/appstudio.redhat.com/snapshotenvironmentbinding_controller.go:103-350 | its outcome and effect: nothing changes on the early returns; a failed reconcile stays within its frame and, past the deletions, leaves all deployments whose API calls do not fail as expected if names are distinct: of the URL, path, branch and destination and with the labels of their components; a finished one converges exactly if they are, and it writes nothing exactly if everything was in place |
| BindingConditions.InsertOrUpdate | appstudio-controller/controllers/appstudio.redhat.com/snapshotenvironmentbinding_controller.go:1025-1059 | reports a change exactly if the list changes |
| BindingConditions.UpdateReconciledCondition | appstudio-controller/controllers/appstudio.redhat.com/snapshotenvironmentbinding_controller.go:981-1023 | both conditions are reported, and written exactly if the list changed |
| BindingConditions.UpdateSays | appstudio-controller/controllers/appstudio.redhat.com/snapshotenvironmentbinding_controller.go:981-1023 | afterwards Reconciled has the status, reason and message reported, and ErrorOccurred the opposite status, its own reason and the same message |
| BindingConditions.UpdatesKeepTheList | appstudio-controller/controllers/appstudio.redhat.com/snapshotenvironmentbinding_controller.go:981-1059 | after any updates there is one condition per type, others are untouched and in place, and ErrorOccurred and Reconciled are opposite |
| BindingConditions.TransitionMovesWithContent | appstudio-controller/controllers/appstudio.redhat.com/snapshotenvironmentbinding_controller.go:1048-1055 | the transition time is the time of the report if status, reason or message changes, and otherwise the condition stays as it is |
| PromotionOrder.OnlyTheOldestWrites | appstudio-controller/controllers/appstudio.redhat.com/promotionrun_controller.go:104-239 | in every reachable state a binding is written only for a run with no older incomplete one of its application: for one that passes the gate at that moment, or one that was deleted after it had passed it, exactly if it no longer exists |
| PromotionResults.BindingIsOfRun | appstudio-controller/controllers/appstudio.redhat.com/promotionrun_controller.go:149-246 | in every run of the system, the binding that is written ends up as that of the application and environment of the writing run, in its namespace, with its snapshot; it is created only if there was none for them, and no other binding is touched |
| PromotionResults.BeginDecides | appstudio-controller/controllers/appstudio.redhat.com/promotionrun_controller.go:104-154 | a run is left alone if it is not let through or not supported; otherwise the reconcile takes the first binding of its application and environment, or creates one unless the application has no components or the name is taken |
| PromotionOrder.PromotionsAreOrdered | appstudio-controller/controllers/appstudio.redhat.com/promotionrun_controller.go:104-121 | over any run of the system, the promotion runs that write bindings of one application do so in order of creation, and no incomplete one is older |
| PromotionOrder.PromotionsDoNotOverlap | appstudio-controller/controllers/appstudio.redhat.com/promotionrun_controller.go:104-121 | if a run writes before and after another one of its application, whichever bindings, both were created at the same time |
| PromotionOrder.CompleteIsTheEnd | appstudio-controller/controllers/appstudio.redhat.com/promotionrun_controller.go:104-108 | a Complete run never changes again, and never writes again |
| PromotionOrder.BothPassIff | appstudio-controller/controllers/appstudio.redhat.com/promotionrun_controller.go:402-427 | two runs pass the gate together exactly if they have the same creation time and no older one is incomplete |
| PromotionProgress.EqualTimesOverlap | appstudio-controller/controllers/appstudio.redhat.com/promotionrun_controller.go:402-427 | with equal creation times, writes of two runs do alternate |
| PromotionProgress.DeletedRunWrites | appstudio-controller/controllers/appstudio.redhat.com/promotionrun_controller.go:104-239 | a run that is deleted after it passed the gate still sets its snapshot: nothing reads it again before the write |
| PromotionProgress.ReadyRunWrites | appstudio-controller/controllers/appstudio.redhat.com/promotionrun_controller.go:149-242 | uninterrupted, a run let through becomes Active, and sets its snapshot in its binding exactly if the snapshot exists and the binding has another one or the run has named none yet |
| PromotionProgress.ReconcileCompletesIff | appstudio-controller/controllers/appstudio.redhat.com/promotionrun_controller.go:149-398 | an uninterrupted reconcile completes the run exactly if its snapshot exists, all deployments exist and can be read, and none is Synced but not Healthy or the ten minutes are up; the result is Failure exactly if they are up; nothing else changes |
| PromotionProgress.SuccessIsTrueIff | appstudio-controller/controllers/appstudio.redhat.com/promotionrun_controller.go:276-385 | when it completes the run with Success, all deployments are Synced and Healthy exactly if all are Synced |
| PromotionProgress.UnhealthyRunSucceeds | appstudio-controller/controllers/appstudio.redhat.com/promotionrun_controller.go:299-312 | a run in time whose only deployment is OutOfSync and Degraded completes with Success |
| PromotionProgress.MissingKeepsWaiting | appstudio-controller/controllers/appstudio.redhat.com/promotionrun_controller.go:187-376 | over any run of the system, a promotion run does not complete while its snapshot, or one of its deployments, is missing whenever the worker asks for it, however long that takes; nor while, whenever it asks, a deployment is Synced but not Healthy, or missing, and the time is not up |
| PromotionProgress.CanCompleteIff | appstudio-controller/controllers/appstudio.redhat.com/promotionrun_controller.go:110-147 | in every reachable state with a free worker, an incomplete run can still complete, by some continuation in which it is not deleted but older runs may be, exactly if it is a manual promotion that names an environment |
| PromotionProgress.UnsupportedRunBlocks | appstudio-controller/controllers/appstudio.redhat.com/promotionrun_controller.go:123-147 | any other run stays as it is and keeps younger runs of its application out until it is deleted |
| PromotionResults.SuccessIsPromotedIff | appstudio-controller/controllers/appstudio.redhat.com/promotionrun_controller.go:222-398 | in every run of the system, a promotion run that is completed with Success has written the binding that its status names exactly if the worker's run was still the one at its key; otherwise it never writes anything, also not later |
| PromotionResults.ReusedRunSucceeds | appstudio-controller/controllers/appstudio.redhat.com/promotionrun_controller.go:329-395 | the other case happens: deleted and created again under its name before the worker reads it again, a run completes with Success while its binding has the snapshot of the deleted one |
| PromotionResults.KeptOut | appstudio-controller/controllers/appstudio.redhat.com/promotionrun_controller.go:402-427 | over any run of the system, an unsupported older run of an application of the same name, in whatever namespace, keeps a run as it is |
| PromotionResults.CanCompleteWithinIff | appstudio-controller/controllers/appstudio.redhat.com/promotionrun_controller.go:402-427 | in every reachable state with a free worker, a supported run can still complete without a run of another namespace being deleted exactly if no unsupported one of an application of the same name there is older |
| ResourceStates.LastNonBlankIsLast | cluster-agent/utils/argocd_sync_command.go:158-174 | what "last non-blank" means: blank only if all values are, and followed by blanks only |
| ResourceStates.ResourceState.Merge | cluster-agent/utils/argocd_sync_command.go:162-174 | each field takes the new value unless that is blank; tells whether anything changed |
| ResourceStates.GroupResourceStates | cluster-agent/utils/argocd_sync_command.go:286-297 | merging into the first object of each key leaves one state per key, with the last non-blank value of every field |
| ResourceStates.CollectStates | cluster-agent/utils/argocd_sync_command.go:315-357 | the sync results in order, with live status where it applies, then each other resource once |
| ResourceStates.ResultIsCollected | cluster-agent/utils/argocd_sync_command.go:325-339 | a sync result is collected with its hook and message, and with the live status and health of its resource if it is the first result of that and no hook, and its own phase and status otherwise |
| ResourceStates.RestIsCollected | cluster-agent/utils/argocd_sync_command.go:349-357 | any other resource is collected with its live status and health, and no hook or message |
| ResourceStates.CollectedAreAll | cluster-agent/utils/argocd_sync_command.go:315-357 | a state is collected for exactly the resources of the status and of the sync results |
| ResourceStates.FilterSelected | cluster-agent/utils/argocd_sync_command.go:358-366 | deleting in place from the end filters the list |
| ResourceStates.GroupApplication | cluster-agent/utils/argocd_sync_command.go:286-368 | without a selection every key of status or sync results has a group |
| ResourceStates.KeyIdentifies | cluster-agent/utils/argocd_sync_command.go:153-156 | keys tell resources apart if groups, kinds and namespaces hold no slash |
| DeploymentMetrics.StaysWithinLimitIff | backend/metrics/metrics.go:45-72 | within 5,000 tracked deployments, one more stays within them exactly if it is tracked already or fewer than 5,000 are |
| DeploymentMetrics.DistinctKeysFill | backend/metrics/metrics.go:58-72 | of distinct deployments, all are tracked up to 5,001 |
| DeploymentMetrics.LimitIsExceeded | backend/metrics/metrics.go:45-72 | 5,001 are reached |
| DeploymentMetrics.ActiveDeployments.Overfill | backend/metrics/metrics.go:58-72 | from a new set, reporting more than 5,000 deployments takes the gauge to 5,001 |
| DeploymentMetrics.ActiveDeployments.AddOrUpdate | backend/metrics/metrics.go:58-72 | tracks a new key while at most 5,000 are tracked; gauges agree with the set |
| DeploymentMetrics.ActiveDeployments.Remove | backend/metrics/metrics.go:74-95 | untracks a key, taking it out of the failure gauge if it was in error |
| DeploymentMetrics.ActiveDeployments.SetErrorState | backend/metrics/metrics.go:97-120 | sets the state of a tracked key; the failure gauge follows |
| DeploymentMetrics.ActiveDeployments.Clear | backend/metrics/metrics.go:122-129 | zeroes one gauge, then the other, and then empties the set, with any calls in between; on its own it leaves nothing tracked and both gauges at zero |
| DeploymentMetrics.CallsKeep | backend/metrics/metrics.go:58-120 | whatever calls are made, the gauge of failures stays as far off as it was, and the other one is right after the first that adds or removes |
| DeploymentMetrics.ClearIsRightIff | backend/metrics/metrics.go:122-129 | a clear leaves the gauges right exactly if no call in between adds or removes, or nothing is tracked when the set is emptied, and as many deployments are in error then as when the failures were zeroed; after it the gauge of failures stays off by that difference |
| DeploymentMetrics.FailureOutlivesClear | backend/metrics/metrics.go:97-129 | a deployment that fails during a clear is counted as failing for good |

## Left out

- ClaimSafety.ExclusiveBinding: assumes one claim worker, current reads, no user edits of spec, status or annotations, and no target name reused while a claim names it; ClaimProgress.ReuseBreaksExclusion shows what happens otherwise.
- PromotionOrder.PromotionsAreOrdered: assumes one promotion worker, current reads and creation times that never go back.
- DeploymentNames.NamesCollideIff: the hash is any function that yields 64 characters without a dash and does not collide on the two names; SHA-256 itself is not modelled.
- ControllerRouters.RouteAll: the endless loop is modelled over any finite input.
- ExponentialBackoffs.NthDelay: exact arithmetic over reals; float rounding and duration overflow are not modelled.
- EventRouting.ConservedAlways: a panic of the router, after which it restarts with empty maps, is not modelled, and neither is what an application loop does with an event; a router serves one namespace, so the namespace is not part of its keys.
- WorkspaceRouters.WorkspaceRouter.ProcessMessage: that a processed managed environment is passed on to all application loops is not modelled; it needs no answer and changes no map.
- TaskRetryLoops.TaskRetryLoop.SchedulePass: `now` is fixed during a pass, where the source reads the clock for each task.
- TaskRetryLoops.TaskRetryLoop.Run: `removeTask` messages, task cancel functions and the periodic report are left out; nothing sends `removeTask`.
- DeploymentMetrics.ActiveDeployments.Clear: calls of other goroutines are whole calls, since a gauge set while one is under way has the effect of being set before or after it; two clears at once are not modelled.
- BindingPairs.PairConvergesIff: reconciles without errors that run one after the other.
- Stale reads and update conflicts of the Kubernetes client: reads are current, and an update fails only if the object changed since it was read.
- Status conditions of claims, targets and promotion runs, and events and log lines of all reconcilers.
- Changes of DeploymentTargetClasses while reconciles run: classes are fixed in the claim protocol.
- The operator behind SpaceRequests: its writes are arbitrary.
- Garbage collection by owner references, and deletion of GitOpsDeployments that have finalizers: a delete removes them at once.
- The early returns of the binding reconcile for a missing binding, application, environment or namespace, and how the destination of an environment is found out: the destination is a parameter.
- The per-component status and the deployment condition of a binding: they only report.
- The other cleaners of the database reconciler and errors while fetching a batch: the same shape of loop with other conditions.
- The order in which remaining resources are listed, label selectors and resource selection: open choices or parameters.
- Managed environments, repository credentials, sync operations, Argo CD login, webhooks and migrations: plumbing around the parts above.
