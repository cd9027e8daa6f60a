# Placement, movement and routing of tenants

A Dafny model of the control plane that places tenant micro-VMs on hosts, moves them between
hosts, and routes requests to wherever they are. The state is that of the system: rows of the
`hosts` and `tenants` tables, the load balancer's listener rules, the hosts' nginx peer maps, and
what the host agents and the scaler remember between ticks. Answers from SSM, ELB, the Auto
Scaling group, Firecracker, HTTP probes, `nginx -t` and the random shuffle are arbitrary
oracle values; time is integer seconds. `dafny verify dfyconfig.toml` checks everything.

## How the project is laid out

| file | what it is about |
|---|---|
| `Tables`, `Text`, `Sums` | table rows with possibly missing attributes; string order; totals |
| `HostRows` | the conditional writes on one host row, as functions and as methods of the hosts table |
| `Capacity` | capacity arithmetic, ranking, the candidates of a create |
| `Plane` | placement as a transition system: any number of creates broken up at every table call, interleaved with deletes, resizes, migrations, failovers and TTL expiry |
| `Ledger` | conservation of booked load, and no oversubscription, over every run of `Plane` |
| `Numbers` | VM numbers over every run of `Plane` |
| `TenantApi` | the create, delete and resize handlers, written out against the hosts table of `HostRows` and proved to be runs of `Plane` |
| `Migration` | the sweep's migration machine, its rollback, watchdog, start and cancel |
| `Refinement` | runs of `Migration` and attempts of `Pipeline` are runs and steps of `Plane` |
| `QueueRefinement` | runs of `Failover` are runs of `Plane`, with their numbers reserved |
| `Failover` | claim, at-least-once queue, workers and watchdog, with the three timeouts |
| `Pipeline` | enqueue, worker and the launch / verify / repoint / flip pipeline |
| `Detector` | one detector run over a batch of tenants, and the cooldown over many runs |
| `PublicProbe` | the public reachability gate |
| `Routing`, `Delivery`, `PeerSync` | listener rules; two-hop delivery; the peer-map sync of a host |
| `HealthWriter`, `DeadZone` | the host agent's throttled health writes and its VM recovery |
| `IdleReclaim`, `Schedule` | the scaler's idle-host sweep and its schedule pass |

Code of the system that changes state is modelled by classes and loops (`HostsTable`, `Api`,
`Sweep`, `Handlers`, `Batch`, `Listener`, `PeerSync.Agent`, `HealthWriter.Agent`, `DeadZone.Agent`,
`Scaler`, `Reconciler`) whose methods are proved against transition functions; what is promised
about whole runs is then proved of those functions.

## Granularity and assumptions

- Each DynamoDB update is atomic. A create is interrupted at every table call; a delete, a migration tick, a watchdog
  read-and-reap and the visit of one host by the scaler are one step each. A resize is two: its checks, and the commit
  (both writes together), with anything in between.
- The detector is serial (`deploy/stack.py:832`). Workers run concurrently.
- A queue message is deleted, if at all, before it becomes visible again. A worker starts at the moment its message is
  received; a start delayed by some seconds counts towards its life.
- While failover goes through the queue, nobody but the detector and its workers writes the two claimable statuses
  (the synchronous path, which does, is the alternative to the queue). Everything else about the tenant row may be
  written by anybody at any time.
- A table scan may mix moments: of a scanned host row only the totals need still be right.
- Tenant ids are fresh and contain neither `/` nor `*`. Where a theorem needs them prefix-free it says so.
- The digest of the peer set is injective, so it is represented by the set. Local time is given.
- The retries of `_add_alb_rule` on a taken priority are one atomic attempt that finds a free priority
  or does not.
- The hosts' peer directory is changed by its own agent only, and removing files succeeds where
  exactness of the directory is claimed (`PeerSync.Run`).

## What the code does not keep

Each of these is a lemma with a concrete input or an exact condition.

- `host_fits` reads a missing counter as 0 while the conditional write refuses it: the two agree exactly on
  rows that carry every counter (`Capacity.ReservableIffFitsAndPublished`, `FitsButRefused`).
- A delete while the tenant's clone is still running, followed by the clone's failure, releases the slot twice
  (`Ledger.DeleteDuringCloneReleasesTwice`). `Ledger.Drift` lists every event that leaks, and by how much.
- A finished migration or failover books its target without a condition, and a resize commits without repeating the
  check it made before it waited for the VM: over any run a host stays within capacity if and only if each of them
  found the room it took (`Ledger.CountersStayWithinIff`). Two resizes checked before either commits oversubscribe a
  host (`Ledger.TwoResizesOversubscribe`), and a resize of a row that changed meanwhile leaks the difference
  (`Ledger.Drift`).
- Sizes are not checked for sign: giving a slot back keeps capacity exactly for sizes that are not negative
  (`Ledger.ReleaseKeepsWithinIff`), and a run that creates and rolls back a negative clone oversubscribes a host
  (`Ledger.NegativeSizeOversubscribes`).
- A migration's number is read, not reserved: two migrations to one host collide (`Numbers.TwoMovesCollide`). So is a
  synchronous failover's: it collides with a create that reserves after the detector's snapshot
  (`Numbers.SnapshotNumberCollides`). Numbers stay unique over a run if and only if every migration that completes,
  and every failover that flips with a number it did not reserve, finds that number held by nobody else
  (`Numbers.VmNumbersAreUnique`); a queued failover's number is always reserved (`QueueRefinement.FlipsAreReserved`).
- Unguarded status writes, such as recording a failover's failure, bring a deleted tenant back without booking it
  (`Ledger.Drift`).
- `migrate` does not look at the status and every way out sets `running`: a deleted tenant comes
  back (`Migration.CancelResurrects`); the status is restored exactly for tenants that were running
  (`Migration.FailedMigrationLeavesPlacement`). A cold migration stopped its source VM, and a cancel, unlike a rollback,
  does not start it again (`Migration.ColdSourceRelaunchedIff`).
- The three failover timeouts are safe if and only if a worker's life is strictly shorter than both the
  visibility timeout and the watchdog's cutoff (`Failover.TimingIsExact`). With safe timeouts a further claim of the
  tenant is safe if and only if no earlier message of it can still be delivered and no live worker holds one
  (`Failover.QueueIsSafeIff`, `SecondMessageIsUnsafe`).
- Delete, TTL expiry and migrate write the tenant row while a worker recovers it, and the worker's final flip has no
  condition: a tenant deleted meanwhile runs again (`Failover.DeletedTenantComesBack`). While a worker executes the
  row is `failover_recovering` if and only if no other actor wrote it since the worker's claim
  (`Failover.RecoveringIffUntouched`); one live worker, reap safety and one flip per claim hold regardless.
- `failover_failed_partial` is chosen by searching the error text for phrases
  (`Pipeline.PartialMeansVerifiedIff`, `PartialWithoutVm`).
- Memory is not booked in the detector's snapshot: a batch hands a host tenants that do not fit it together
  (`Detector.MemoryIsNotBooked`, `OverrunMemory`).
- Rules are looked up by substring, which hits another tenant's rule exactly when one id is a prefix of the
  other (`Routing.LookupHitsIffPrefix`, `AddGivesRuleIff`, `RepointHitsOwnRuleIff`). An empty list of tenant
  ids purges every tenant's rule (`Routing.Listener.PurgePerTenant`). A repoint that loses all its attempts to other
  actors returns normally, so its gate passes with no rule made (`Routing.Listener.RepointAlbRule`).
- The peer sync's hash gate compares with what is running, not with what is on disk
  (`PeerSync.RejectedConfsStay`).
- The comment beside the clamp of the refresh interval at 110 s says that no configured value can fake staleness
  (`deploy/userdata/host-agent.py:78-81`). With the 15 s poll it can (`HealthWriter.DefaultsAreFreshClampIsNotEnough`).
  The exact condition is refresh + period <= 120 s for polls at most a period apart (`HealthWriter.FreshnessIsExact`),
  and refresh rounded up to a multiple of the period < 120 s for polls exactly a period apart
  (`HealthWriter.RegularFreshnessIsExact`).
- A migration or failover onto an empty host leaves its idle stamp and idle mark alone, so a host can be
  terminated that was not empty throughout: it was if and only if no VM moved in
  (`IdleReclaim.TerminationIsSafeIff`). A scan older than a booking terminates the host booked
  (`IdleReclaim.StaleVisitTerminatesBusyHost`).
- `_parse_schedule` accepts digits of any script, which the scaler's string comparison misplaces
  (`Schedule.WindowIsModularIff`). The comment "no wrap-around at midnight" above the comparison is
  contradicted by the code below it; the day looked up is the current one, not the one the window opened on
  (`Schedule.OvernightAgreesIff`).

## Model

| member | source | states |
|---|---|---|
| HostRows.HostsTable.ReserveHostSlot | deploy/lambda/api/handler.py:2366-2420 | books all counters and returns the old next number, or changes nothing, against the row as it is, with the ceilings of the row the caller saw |
| HostRows.ReleaseUndoesReserve | deploy/lambda/api/handler.py:2423-2432 | a release undoes a reservation whatever load came and went in between, and the number taken is never given back |
| HostRows.HostsTable.BumpTargetCounters | deploy/lambda/health_check/handler.py:245-282 | the two updates add the load and raise, never lower, the next number |
| HostRows.HostsTable.ReserveTargetVmNum | deploy/lambda/health_check/handler.py:1162-1185 | hands out the current number and advances it |
| HostRows.ReserveStaysWithin | deploy/lambda/api/handler.py:2387-2409 | with a stale scan whose totals are right, a reservation succeeds exactly when the row stays within capacity after it |
| HostRows.BumpWithinIff | deploy/lambda/health_check/handler.py:245-282 | the unconditional bump keeps capacity exactly when a reservation would have been granted |
| HostRows.BumpAfterReserveNumber | deploy/lambda/health_check/handler.py:1162-1185 | a bump with a number reserved earlier leaves next_vm_num alone, whatever happened in between |
| Capacity.ReservableIffFitsAndPublished | deploy/lambda/common/capacity.py:46-58 | host_fits and the reservation's condition agree exactly on rows carrying every counter |
| Capacity.AllocatableIsFloor | deploy/lambda/common/capacity.py:24-33 | what may be booked is total times ratio, rounded down |
| Capacity.FitsButRefused | deploy/lambda/common/capacity.py:36-58 | a row host_fits accepts and the reservation refuses |
| Capacity.RankHosts | deploy/lambda/common/capacity.py:61-80 | exactly the fitting, non-excluded hosts, strictly ordered by free vCPU, free memory, id |
| Capacity.RankingIgnoresScanOrder | deploy/lambda/common/capacity.py:61-80 | every permutation of the scan gives the same ranking |
| Capacity.RankingIsUnique | deploy/lambda/common/capacity.py:61-80 | the order determines the list from the set of hosts |
| Capacity.PickHostsForCreate | deploy/lambda/api/handler.py:2347-2363 | for any shuffle: a permutation of the K least loaded, then the tail unchanged |
| Capacity.PicksFitAndTailIsWorse | deploy/lambda/api/handler.py:2324-2363 | the candidates are exactly the schedulable fitting hosts; beyond the first max(1, K) each is less free, by vCPU, memory, id, than all before that limit |
| Plane.StepKeepsFleet | deploy/lambda/api/handler.py:932-1093 | no write creates, loses or renames a host row or touches its totals |
| Plane.RunKeepsInv | deploy/lambda/api/handler.py:932-1093 | on every interleaving, stale and mixed scans included, rows stay complete, tenants and moves name existing hosts, each create's bookings and releases match its phase |
| Ledger.StepConserves | deploy/lambda/api/handler.py:1069-1093 | any step, any host, any resource: booked minus actual load changes by the event's drift and nothing else |
| Ledger.RunConserves | deploy/lambda/api/handler.py:2366-2432 | the conservation law over every run |
| Ledger.LooseKeepsOrderly | deploy/lambda/api/handler.py:1012-1020 | that only its create acts on a tenant being cloned, and that moves start where their tenant is, is kept by every step that respects it |
| Ledger.BookedLoad | deploy/lambda/api/handler.py:1007-1020 | from any orderly start, booked minus actual load stays the same under create, clone rollback, delete, resize and migration, and never falls with failover and TTL expiry |
| Ledger.BookedLoadAtRest | deploy/lambda/api/handler.py:3024-3033 | from an opening fleet the counters are at least the sum over live tenants and slots in flight, exactly it without failover and TTL expiry, and the load itself with no create in flight |
| Ledger.DeleteDuringCloneReleasesTwice | deploy/lambda/api/handler.py:1012-1020 | delete, then clone failure: the host ends booked for one VM less than it carries |
| Ledger.StepWithinIff | deploy/lambda/api/handler.py:2396-2409 | any step keeps a host within capacity if and only if a migration or failover completing on it, or a resize committing on it, finds room |
| Ledger.FinishMoveWithinIff | deploy/lambda/health_check/handler.py:456-488 | a finished migration keeps the target within capacity exactly when the VM fits then |
| Ledger.CountersStayWithinIff | deploy/lambda/api/handler.py:932-969 | over any run and from any start, used vCPU, memory and VM count stay within total times ratio and the VM ceiling throughout if and only if every migration and failover completed there and every resize committed there found the room it took |
| Ledger.TwoResizesOversubscribe | deploy/lambda/api/handler.py:3003-3033 | two resizes that fit one by one but not together, both checked before either commits, leave the host over capacity |
| Ledger.NeverOversubscribed | deploy/lambda/api/handler.py:932-1020 | nor is the real load ever over capacity, on runs that leave tenants being cloned alone |
| Ledger.ReleaseKeepsWithinIff | deploy/lambda/api/handler.py:2423-2432 | giving a slot of some size back keeps every host within capacity if and only if the size is not negative |
| Ledger.NegativeSizeOversubscribes | deploy/lambda/api/handler.py:1007-1020 | a run from an opening fleet: a negative clone, another create, the clone's rollback, and the host is over capacity |
| Numbers.StepMovesForward | deploy/lambda/api/handler.py:2396-2432 | no event moves next_vm_num back; a number handed out was the current one |
| Numbers.NextNeverDecreases | deploy/lambda/health_check/handler.py:245-282 | next_vm_num never decreases over any stretch of any run |
| Numbers.IssuedNumbersAreDistinct | deploy/lambda/health_check/handler.py:1162-1185 | all numbers handed out on one host are pairwise distinct, on every run |
| Numbers.NoNumberBelowABump | deploy/lambda/health_check/handler.py:264-280 | after a bump with n no later reservation on that host returns n or less |
| Numbers.UnreservedApartIff | deploy/lambda/health_check/handler.py:456-488 | completing a migration, or a failover whose number is not reserved, keeps numbers unique if and only if no other tenant, create in flight or reserved failover holds the number it brings |
| Numbers.VmNumbersAreUnique | deploy/lambda/api/handler.py:905-950 | over a run no two tenant rows (deleted ones included, since they can come back), creates in flight or reserved failovers of a host share a number if and only if every completing migration, and every failover that flips with a number it did not reserve, finds it held by nobody else |
| Numbers.TwoMovesCollide | deploy/lambda/api/handler.py:1218-1218 | two migrations to one host end there with the same number |
| Numbers.SnapshotNumberCollides | deploy/lambda/health_check/handler.py:882 | a synchronous failover flips with the number of a create that reserved after the snapshot |
| Numbers.CreateBooksAtMostOnce | deploy/lambda/api/handler.py:932-985 | a create wins one reservation at most: one when placed, one given back when rolled back, none when pending or rejected |
| Numbers.GiveUpMeansRefused | deploy/lambda/api/handler.py:932-947 | over every run a create queues or rejects its tenant only after the pinned host, or each of its first max(1, attempts) candidates, refused the reservation |
| TenantApi.TraceIsRun | deploy/lambda/api/handler.py:932-1093 | a legal trace of handler steps is a run of the transition system |
| TenantApi.Api.CreateTenant | deploy/lambda/api/handler.py:863-1020 | rejected, pending, created on one booked host within capacity, or rolled back with the load restored and the number used up; each table call a step of the transition system |
| TenantApi.Api.ReserveSomewhere | deploy/lambda/api/handler.py:932-942 | tries candidates in order up to the limit and books exactly the one it returns, or none |
| TenantApi.Api.WriteTenant | deploy/lambda/api/handler.py:972-1020 | writes the tenant row; a failed clone gives the slot back and marks the row deleted |
| TenantApi.Api.DeleteTenant | deploy/lambda/api/handler.py:1040-1095 | 404, idempotent 200, or one delete step on both tables |
| TenantApi.GrowthIsChecked | deploy/lambda/api/handler.py:3009-3016 | a running tenant asking a host within capacity for more is let through exactly if used plus difference is at most what may be booked, and an undisturbed commit then leaves the host within capacity |
| TenantApi.Api.CheckResize | deploy/lambda/api/handler.py:2987-3013 | 404, 400 or through, in the code's order of checks, with the host and the difference it will commit |
| TenantApi.Api.CommitResize | deploy/lambda/api/handler.py:3023-3033 | the two unconditional writes, in whatever state they meet the tables |
| TenantApi.Api.TenantResize | deploy/lambda/api/handler.py:2987-3039 | undisturbed: 400 for a tenant not running, not asking for more, without a host, or asking for more than the host may book; 502 and no change if the VM refuses; 200 leaves a host within capacity within capacity, with exactly the difference added |
| Migration.Sweep.AdvanceMigration | deploy/lambda/health_check/handler.py:330-512 | each tick waits, submits the restore, completes or rolls back, by conditions stated apart from its branches |
| Migration.Sweep.FlipToTarget | deploy/lambda/health_check/handler.py:456-512 | ownership, both hosts' counters and the stop of the VM left behind |
| Migration.Sweep.RollbackMigration | deploy/lambda/health_check/handler.py:285-327 | clears the whole context, sets running, relaunches a cold migration's source |
| Migration.Sweep.StartMigration | deploy/lambda/api/handler.py:1170-1295 | accepted exactly under the stated conditions; records source, target and the unreserved number |
| Migration.Sweep.CancelMigration | deploy/lambda/api/handler.py:1109-1129 | only while migrating; clears the context |
| Migration.OwnershipMovesOnlyAtTheEnd | deploy/lambda/health_check/handler.py:404-488 | over every run: owner, number and counters change only in the tick that sees the restore succeed, after that migration's snapshot succeeded, with all gates passed, to the recorded target and number |
| Migration.CompletionHandsOver | deploy/lambda/health_check/handler.py:404-500 | conversely, over every run, a tick that finds the restore done and every gate open hands the tenant to the recorded target and number; in all the migration has then sent the snapshot on the source, the restore on the target with that number, and the stop of the VM left on the source |
| Migration.CommandsInFlight | deploy/lambda/health_check/handler.py:372-402 | while it lasts a migration has sent exactly the first, or the first two, of these |
| Migration.TickTable | deploy/lambda/health_check/handler.py:347-512 | every case of a tick spelled out: when it rolls back, waits, submits the restore or completes |
| Migration.FailedMigrationLeavesPlacement | deploy/lambda/health_check/handler.py:285-327 | rollback, watchdog and cancel leave owner, number and counters as before migrate with the context cleared; the status too exactly if it was running |
| Migration.ColdSourceRelaunchedIff | deploy/lambda/health_check/handler.py:298-310 | of the ways out that leave the tenant on its source, exactly the rollback of a cold migration starts the source VM again; a cancel starts nothing |
| Migration.CancelResurrects | deploy/lambda/api/handler.py:1170-1215 | a deleted tenant whose migration is cancelled is running |
| Migration.RestoreSubmittedAtMostOnce | deploy/lambda/health_check/handler.py:372-402 | at most one restore command per migration |
| Migration.LateTickEndsIff | deploy/lambda/health_check/handler.py:360-370 | a tick ends the migration for all oracle answers if and only if the deadline has passed |
| Migration.MigrationTerminates | deploy/lambda/health_check/handler.py:360-370 | the first tick past the deadline ends it on every run; phase changes never extend it |
| Refinement.StepIsPlaneStep | deploy/lambda/health_check/handler.py:330-512 | migrate, each sweep tick and cancel do to tenant row and host counters what the fleet's transition system does |
| Refinement.FleetRuns | deploy/lambda/health_check/handler.py:285-512 | over any interleaving of the migration machine with any steps of the rest of the fleet, rows and counters are those of a legal trace of the fleet, so its theorems cover the machine |
| Refinement.MachineRuns | deploy/lambda/health_check/handler.py:285-512 | and the machine's side is a run of the migration machine, so the migration theorems hold of it too |
| Refinement.AttemptIsPlaneStep | deploy/lambda/health_check/handler.py:1104-1159 | a failover attempt, queued or synchronous, is a flip of the fleet when all gates pass, a status change when its failure is recorded, and nothing otherwise |
| Refinement.FinishIsFinishMove | deploy/lambda/health_check/handler.py:456-512 | the completing tick moves tenant, number and both hosts' counters as the fleet's move does |
| Failover.FailoverIsSafe | deploy/lambda/health_check/worker.py:35-99 | on every run, whatever other actors write to the row: a worker that has the tenant is the only live one, the watchdog never reaps the tenant under it, and no claim leads to two flips |
| Failover.RecoveringIffUntouched | deploy/lambda/health_check/handler.py:1104-1115 | while a worker executes, and so when it flips, the row is failover_recovering if and only if no other actor wrote it since that worker's claim |
| Failover.DeletedTenantComesBack | deploy/lambda/health_check/handler.py:1104-1115 | a run in which a tenant deleted during its recovery ends running |
| Failover.ReapsExactly | deploy/lambda/health_check/handler.py:1287-1324 | the watchdog may reap exactly a tenant claimed for at least the cutoff, and only fails it |
| Failover.DeployedTimingIsSafe | deploy/stack.py:927-944 | 600, 900 and 1800 seconds meet the condition |
| QueueRefinement.ProtocolRuns | deploy/lambda/health_check/worker.py:35-99 | over any interleaving of the queue protocol with steps of the fleet, the protocol's side is a run of it, other writers included |
| QueueRefinement.FleetRuns | deploy/lambda/health_check/handler.py:1188-1330 | and rows, counters and numbers are those of a legal trace of the fleet, so its theorems cover enqueue, workers and watchdog |
| QueueRefinement.FlipsAreReserved | deploy/lambda/health_check/handler.py:1162-1185 | on every such run each flip finds its number still reserved for it, so no queued failover brings an unreserved number |
| Failover.TimingIsExact | deploy/lambda/health_check/handler.py:1287-1330 | exclusive on every run if and only if a worker's life is shorter than visibility and cutoff |
| Failover.ShortVisibilityIsUnsafe | deploy/stack.py:927-932 | otherwise a redelivery gives the tenant to two workers |
| Failover.ShortCutoffIsUnsafe | deploy/lambda/health_check/handler.py:1287-1330 | otherwise the watchdog reaps a tenant being recovered |
| Failover.QueueIsSafeIff | deploy/lambda/health_check/handler.py:1235-1253 | from any state of a safe run, everything after a claim stays exclusive if and only if no earlier message can still be delivered and no live worker holds one |
| Failover.SecondMessageIsUnsafe | deploy/lambda/health_check/handler.py:1235-1253 | with the deployed timeouts a run reaches such a claim and ends with two workers on the tenant |
| Pipeline.Handlers.ExecuteFailover | deploy/lambda/health_check/handler.py:955-1159 | succeeds exactly when every gate passes; tenant row, host rows and launches after every outcome |
| Pipeline.Handlers.EnqueueFailover | deploy/lambda/health_check/handler.py:1188-1284 | blocked without a backup; claims only a running tenant still on the scanned host; one job with a reserved number if the send succeeds |
| Pipeline.Handlers.FailoverTenantToHost | deploy/lambda/health_check/handler.py:856-952 | the synchronous path: blocked exactly without a backup, backing off exactly if the host changed, else an attempt with the snapshot's number; row, counters and launches in each case |
| Pipeline.Handlers.ClaimRow | deploy/lambda/health_check/worker.py:35-52 | held exactly from the two claimable states, refreshing the stamp |
| Pipeline.Handlers.ProcessRecord | deploy/lambda/health_check/worker.py:55-99 | flips to the job's target exactly when the row was claimable, the target exists and all gates pass; row, counters and launches in each case |
| Pipeline.FlipsIffGatesPass | deploy/lambda/health_check/handler.py:985-1103 | no gate stops the attempt if and only if launch, VM gate, repoint where needed, probe where configured and the write succeed |
| Pipeline.FailureKeepsPlacement | deploy/lambda/health_check/handler.py:1124-1153 | otherwise owner and number stay and a status written is one of the two failure states |
| Pipeline.PublicFaultsMention | deploy/lambda/health_check/handler.py:1129-1143 | every fault behind the VM gate is recognised by its text, whatever the remote error says |
| Pipeline.PartialMeansVerifiedIff | deploy/lambda/health_check/handler.py:1124-1143 | the partial status means "VM verified" exactly unless the text of a failed launch, VM gate or write contains one of the phrases |
| Pipeline.PartialWithoutVm | deploy/lambda/health_check/handler.py:1129-1143 | a launch error quoting a phrase is reported as a verified VM |
| Detector.DetectUnhealthyAzs | deploy/lambda/health_check/handler.py:574-629 | exactly the zones that have hosts, all unhealthy, each once |
| Detector.AliveExactly | deploy/lambda/health_check/handler.py:574-597 | a host is alive exactly if registered with a heartbeat younger than the threshold in seconds, and does not come back without a new one |
| Detector.PickTargetHost | deploy/lambda/health_check/handler.py:632-655 | the best ranked admissible host, none exactly when there is none |
| Detector.Batch.HandleTenant | deploy/lambda/health_check/handler.py:790-853 | one log entry per tenant: the best admissible host or none, the hand-over's outcome, the row booked for it; bookings, launch numbers, targets and counters stay good |
| Detector.CheckAndHandle | deploy/lambda/health_check/handler.py:671-853 | every tenant on a zone acted on is handled exactly once and no other; every detected or forced zone is excluded from targets and acted on unless it was acted on within the cooldown, if any zone is alive at all |
| Detector.OutcomesPartition | deploy/lambda/health_check/handler.py:786-853 | queued + failed over + blocked + failed is the number of tenants handled |
| Detector.CountersCount | deploy/lambda/health_check/handler.py:786-853 | each counter counts its outcomes: queued, recovered, blocked, and everything that went wrong |
| Detector.QueuedFitsTheScan | deploy/lambda/health_check/handler.py:806-822 | what is queued onto a host fits the vCPU and VM count it had in the scan |
| Detector.MemoryIsNotBooked | deploy/lambda/health_check/handler.py:806-822 | two tenants are queued onto one host as soon as its vCPU and VM count take both and its memory takes each alone |
| Detector.OverrunMemory | deploy/lambda/health_check/handler.py:817-820 | a batch that queues twice a host's memory onto it |
| Detector.CooldownHolds | deploy/lambda/health_check/handler.py:658-668 | over whole sequences of runs an automatic action comes at least the cooldown after any earlier action on the zone |
| Detector.OtherStampsSurvive | deploy/lambda/health_check/handler.py:723-772 | stamping one zone never loses another's stamp |
| PublicProbe.VerifyDashboard | deploy/lambda/health_check/handler.py:1439-1554 | true exactly if the polls contain the required run of consecutive reachable answers; stops at the first one |
| PublicProbe.ReachableExactly | deploy/lambda/health_check/handler.py:1439-1445 | success, redirects, 401 and 403 count as reachable, nothing else does |
| Routing.TidOfPatterns | deploy/lambda/api/handler.py:1850-1913 | the purge reads back exactly the tenant a rule's patterns were made for |
| Routing.PatternsAgreeWithLocation | deploy/userdata/launch-vm.sh:403 | the listener's two patterns of a tenant match exactly the paths of the hosts' location |
| Routing.LocationIsUnique | deploy/userdata/host-agent.py:944-976 | no path belongs to two tenants |
| Routing.LookupHitsIffPrefix | deploy/lambda/api/handler.py:2524 | the substring lookup of t hits the rule of u exactly when t is a prefix of u, and never the catch-all |
| Routing.RequestsFindTheirRule | deploy/stack.py:1746-1791 | a request goes to its tenant's rule if there is one, else to the catch-all, never elsewhere or nowhere |
| Routing.Listener.AddAlbRule | deploy/lambda/api/handler.py:2499-2602 | adds one rule at a free priority unless the lookup finds one; the listener stays well formed |
| Routing.Listener.RepointAlbRule | deploy/lambda/health_check/handler.py:1557-1676 | rewrites the first rule the lookup hits, or adds one; raises exactly if the search for a priority does, and returns normally without a rule exactly if every attempt was lost |
| Routing.Listener.PurgePerTenant | deploy/lambda/api/handler.py:1850-1913 | removes the rules of the listed tenants, of all for an absent or empty list, less those refused |
| Routing.PurgeKeepsListener | deploy/lambda/api/handler.py:1850-1913 | a purge keeps the catch-all and drops exactly the doomed rules |
| Routing.AddGivesRuleIff | deploy/lambda/api/handler.py:2515-2530 | for a tenant without a rule, adding gives it one exactly when no tenant with a rule has an id that starts with its id |
| Routing.RepointHitsOwnRuleIff | deploy/lambda/health_check/handler.py:1557-1640 | in any rule order, what a repoint rewrites is the tenant's own rule exactly when no other tenant with a rule has an id that starts with its id |
| Routing.RebuildRouting | deploy/lambda/api/handler.py:1669-1783 | touches no existing rule; adds only rules of listed tenants to their addressed hosts; with prefix-free ids every addressed tenant has its own rule unless the search for its priority ended without one, so nobody is left out if searches always find one |
| Delivery.NoForwardingLoops | deploy/userdata/init-host.sh:160-180 | at most two hops, in every state, synced or not |
| Delivery.DeliveredIff | deploy/userdata/host-agent.py:1045-1056 | on a synced fleet a request reaches its owner with its path intact from a given host if and only if the confs are in place |
| Delivery.AnyMixtureDelivers | deploy/stack.py:1746-1791 | for any well-formed rules, priorities and host picked, every request for a routable tenant is delivered to its owner |
| Delivery.CutoverIsSafe | deploy/lambda/api/handler.py:1669-1913 | the same after any sequence of additions, repoints and full or partial purges |
| PeerSync.Agent.SyncTenantRoutes | deploy/userdata/host-agent.py:1001-1112 | the tick's effect on directory, running set, recorded hash, readiness and failures, with failing scans, writes, tests and reloads |
| PeerSync.HashDenotesLoaded | deploy/userdata/host-agent.py:1058-1110 | over every run the recorded hash denotes the set nginx runs with |
| PeerSync.ApplyIsExact | deploy/userdata/host-agent.py:1062-1110 | a successful apply leaves directory, running set and record equal to the desired map |
| PeerSync.OtherTicks | deploy/userdata/host-agent.py:1014-1110 | within the interval nothing happens; a tick without its scans or with the recorded set only notes the time; a failed test or reload is counted and leaves running set, record and readiness |
| PeerSync.FailedApplyIsRetriedIff | deploy/userdata/host-agent.py:1084-1110 | a failed apply keeps the running set and is retried at the next due tick whose scans come back, exactly unless the running set is wanted again |
| PeerSync.RejectedConfsStay | deploy/userdata/host-agent.py:1058-1061 | returning to the running set after a failure leaves the rejected confs on disk |
| PeerSync.AppliedFleetIsSynced | deploy/userdata/host-agent.py:1001-1110 | a fleet of up-to-date agents is synced in the sense the delivery theorems need |
| HealthWriter.Agent.WriteDdb | deploy/userdata/host-agent.py:480-583 | a tenant still creating becomes running, with the probed health, exactly when found up with its token and no error, and is otherwise tried again; no other status is written; both caches keep only tenants seen this tick |
| HealthWriter.PromotedAtFirstPromisingTick | deploy/userdata/host-agent.py:507-534 | over runs, a creating tenant becomes running at the first tick that finds it up with its token and no error, and at no other |
| HealthWriter.TickRefinesNaive | deploy/userdata/host-agent.py:480-583 | after a tick the row carries the health just probed with a stamp younger than the refresh |
| HealthWriter.NeverMarkedStale | deploy/lambda/health_check/handler.py:149-165 | with refresh + period within the bound the watchdog marks no such tenant on any run |
| HealthWriter.WatchdogMarksExactly | deploy/lambda/health_check/handler.py:149-165 | the watchdog marks a running tenant exactly when its stamp is missing or 120 s old, and writes nothing else |
| HealthWriter.FreshnessIsExact | deploy/lambda/health_check/handler.py:149-165 | that bound is necessary too, for polls at most a period apart |
| HealthWriter.RegularFreshnessIsExact | deploy/lambda/health_check/handler.py:149-165 | for polls exactly a period apart, fresh on every run if and only if the refresh rounded up to a multiple of the period is below the bound |
| HealthWriter.DefaultsAreFreshClampIsNotEnough | deploy/userdata/host-agent.py:78-81 | the default refresh is safe, the clamp's ceiling is not, even with perfectly regular polls |
| DeadZone.Agent.RegisterNetPoll | deploy/userdata/host-agent.py:249-261 | fires exactly at each multiple of three of the tenant's current dead streak |
| DeadZone.Agent.Launch | deploy/userdata/host-agent.py:264-305 | launches exactly if the submission succeeds and the last act on the tenant was no launch |
| DeadZone.Agent.ProbeOne | deploy/userdata/host-agent.py:308-401 | who is launched when; any two launches of a tenant are separated by its process seen running |
| DeadZone.StreakIgnoresOthers | deploy/userdata/host-agent.py:249-261 | a tenant's streak is that of its own polls under any interleaving |
| DeadZone.SeparatedAfter | deploy/userdata/host-agent.py:264-282 | a launch allowed by the guard keeps launches separated |
| IdleReclaim.Scaler.Sweep | deploy/lambda/scaler/handler.py:56-93 | the sweep is the visits of its scan in order |
| IdleReclaim.SweepLeavesRest | deploy/lambda/scaler/handler.py:56-93 | within a sweep each row is met as scanned, and rows not scanned are untouched |
| IdleReclaim.SweepSparesMinSize | deploy/lambda/scaler/handler.py:78-93 | only hosts scanned idle and empty are terminated; desired falls by one each and not below MinSize |
| IdleReclaim.StampedAt | deploy/lambda/scaler/handler.py:67-73 | a stamp was written on an empty host and nothing was booked there since |
| IdleReclaim.MarkedAt | deploy/lambda/scaler/handler.py:73-77 | an idle host was marked by a visit and nothing was booked there since |
| IdleReclaim.TerminationIsSafeIff | deploy/lambda/scaler/handler.py:56-93 | a terminated host was stamped, marked at least the timeout later, and not booked since; it was empty throughout if and only if no VM moved in |
| IdleReclaim.EmptyHostGoesIdle | deploy/lambda/scaler/handler.py:67-77 | an empty active host that is visited, left alone, and visited again at least the timeout later is idle then |
| IdleReclaim.IdleHostIsTerminated | deploy/lambda/scaler/handler.py:79-93 | and left alone is terminated by the next visit above MinSize that the group accepts |
| IdleReclaim.BusyHostIsActive | deploy/lambda/scaler/handler.py:61-65 | a visit of a host with VMs makes an idle one active and does nothing else |
| IdleReclaim.DeleteOfTheLastStamps | deploy/lambda/api/handler.py:1069-1086 | a delete that empties a host stamps it |
| IdleReclaim.DesiredStaysAboveMin | deploy/lambda/scaler/handler.py:180-183 | desired capacity stays at or above MinSize on every run |
| IdleReclaim.StaleVisitTerminatesBusyHost | deploy/lambda/scaler/handler.py:56-93 | a visit acting on a scan older than a booking terminates the booked host |
| Schedule.ValidTimeShape | deploy/lambda/api/domains/common.py:165-173 | the pattern and the strict parse together leave exactly one shape of time |
| Schedule.AsciiTimesAreClocks | deploy/lambda/api/domains/common.py:165-173 | the ASCII times accepted are exactly the 1440 clock strings, each naming its minute |
| Schedule.BoundIsExact | deploy/lambda/scaler/handler.py:216-225 | string comparison with a valid time is comparison with a minute, pushed up where a digit is not ASCII |
| Schedule.WindowIsModularIff | deploy/lambda/scaler/handler.py:216-225 | the string window is the modular minute interval, wrap included, exactly for ASCII times (and for two spellings of one minute that sort alike) |
| Schedule.OvernightAgreesIff | deploy/lambda/scaler/handler.py:212-225 | looking up the current day equals looking up the opening day exactly without wrap past midnight or with every day listed |
| Schedule.ParsedIsWellFormed | deploy/lambda/api/domains/common.py:154-185 | only well-formed schedules are accepted |
| Schedule.ParseTakesExactly | deploy/lambda/api/domains/common.py:154-185 | exactly which requests are taken and as what, with UTC and every day as defaults |
| Schedule.ParseRoundTrip | deploy/lambda/api/domains/common.py:154-185 | a schedule is taken back unchanged if and only if it is well formed |
| Schedule.SettledIsInForce | deploy/lambda/scaler/handler.py:240-277 | a settled row runs exactly when its window is open and calls for nothing more |
| Schedule.CommandsAreCalledFor | deploy/lambda/scaler/handler.py:240-277 | the commands of a pass are exactly those its rows call for, with the row's own host, id, number and sizes |
| Schedule.UnknownZoneRuns | deploy/lambda/scaler/handler.py:203-213 | a zone that cannot be loaded means running; no listed day means every day |
| Schedule.Reconciler.ReconcileSchedules | deploy/lambda/scaler/handler.py:228-277 | rows up to the first command that fails are settled, the rest untouched, exactly the due commands sent |
| Schedule.Reconciler.ReconcileAt | deploy/lambda/scaler/handler.py:228-277 | the same at given local times, with the scaler's window as the verdict |
| Schedule.SecondPassIsQuiet | deploy/lambda/scaler/handler.py:228-277 | after a full pass every governed row is in force and a second pass issues nothing |

## Left out

- `process_pending`: writes `next_vm_num` as an absolute value and has no reservation, so pending tenants stay pending here.
- Operator actions stop, start, restart, reset, pause, resume: they set the status without a guard. `Plane` has an unconstrained status change instead; the other machines exclude them.
- The fallbacks that return a guessed `vm_num` when DynamoDB returns no attributes or an update fails.
- Re-registration of an existing host, and capacity changes of a registered host.
- Best-effort counter writes that fail: in `Plane` and `Pipeline` they succeed.
- Disk and memory quotas, JWT and RBAC checks, audit rows, SNS events, balloon sizing, metrics text, skills and templates.
- Shell scripts and SSM polling loops: their outcome is an oracle value.
- A TTL stop and a schedule start in the same scaler tick: the sweeps are modelled apart; TTL stop is a status change of `Plane`.
- In `host-tg` mode creates and repoints leave the listener alone; in the listener model they are then absent, and adding with `force` (the rebuild) is the case modelled.
- Target groups: a rule's action is the set of hosts behind it; name collisions of target groups and the listener's rule quota are not modelled.
- Confs of peers are represented by the address they proxy to; their nginx text is not modelled.
- Ledger.BookedLoad: asks that nobody deletes, resizes, moves or fails over a tenant whose clone is still running and that a deleted tenant is not brought back, because otherwise it is false (`Ledger.Drift` says by how much).
- Ledger.NeverOversubscribed: the real load, unlike the counters of `Ledger.CountersStayWithinIff`, is bounded under those conditions and outside the window between the two writes of a clone rollback.
- Failover.FailoverIsSafe: asks that the detector claims a tenant only when no live message of it is left (`Failover.QueueIsSafeIff` shows the condition exact); one tenant at a time, since tenants share only host counters.
- QueueRefinement.FlipsAreReserved: asks that no other failover flips with a number reserved for this tenant's jobs, and that nobody but the protocol writes a claimable status.
- Detector.QueuedFitsTheScan: says nothing of memory, which the batch does not book (`Detector.MemoryIsNotBooked`).
- PeerSync.FailedApplyIsRetriedIff: counts ticks, not seconds, between the failure and the next due tick.
- HealthWriter.NeverMarkedStale: for tenants that are not up or already promoted, with writes that succeed.
- IdleReclaim.TerminationIsSafeIff: scans are current at each visit, and only booked VMs leave a host.
