# Mini AI Cloud control plane, modelled and verified

This project models the control plane's database transactions in Dafny and proves what every run of
them keeps. A repository method is one atomic step over tables held as maps and sequences; a raised
exception aborts its transaction, so a failing step changes nothing. Row locks, the database clock,
fresh ids, dependency queries and Kubernetes answers enter as parameters.

How the files fit together:

- **Reservation ledger.** `Ledger` holds the tables and the transactions `place`, `release_and_settle`,
  observation, worker registration, heartbeat, status, expiry, inventory, submission, retry and
  cancellation as functions on the database. `ControlPlane.Repositories` is the same code as an object
  that updates its tables in place, proved equal to those functions and to keep their invariants.
  `LedgerAccounts`, `LedgerBalance`, `LedgerBindings` and `LedgerQueue` prove the invariants,
  `ControlPlaneRuns` states them for every run from empty tables, and `LedgerStories` has runs into the
  states where a promise fails. `PlacementRules` says on the rows' fields when a placement succeeds, `Billing`
  what is billed, `LedgerRows` what single rows say, and `PoolLedger` joins placement and the pool planner over
  runs. `Amounts` sums resource vectors over reservations.
- **Quotas.** `Quotas` has the counter operations and their limits, `QuotaRows` the row updated field by
  field, `QuotaBook` the conservation of open reservations and daily cost, `QuotaDays` the daily cost on
  arbitrary days, `ServiceBook` the share of the same quota that services hold.
- **Accelerator pools.** `PoolPlanner` plans one physical pool, `PoolCapacity` classifies deferred
  reservations and computes batch capacity, `ServiceCapacity` computes what a service candidate offers.
  `NodeNames` checks Kubernetes names, `Arithmetic` has the floor-division steps.
- **Job groups.** `Graphs` decides cycles, `JobGroups` resolves tasks and group status,
  `DependencyTable` inserts edges.
- **Gateway.** `Gateway` routes requests, `GatewayPreference` says who answers, `RoundRobin` is the wrapping cursor, `GatewayRuns` follows circuits
  and balanced routing over runs of calls and reports, `Catalogue` lists models.
- **Smaller protocols.** `Outbox` (leases), `CandidateLanes` and `CandidateOrder` (the bounded
  three-lane scan and its order in terms of tasks), `GangPlacement`
  (single-node gangs), `Preemption` (victim choice), `LockOrder` (row-lock order). `Sorting`, `Common`,
  `Accelerators` and `TaskStates` are shared.

`Worker.reserved_cpu` is counted in integer millicores, costs are exact reals, and dates are day numbers.

Where the code does not do what a reader might expect, the model follows the code, and lemmas show an input
where it fails and say exactly when:

- `_roll_daily_state` compares dates for inequality only, so a transaction whose clock is on an earlier day
  rolls the row back and forgets what was reserved. Over runs on arbitrary days the reserved cost is the open
  estimates made since the row last changed its day, less what older reservations of that day took back, and
  exactly this amount decides whether a release is refused (`QuotaDays.EveryRunFollows`,
  `QuotaDays.CloseRefusedExactly`, `QuotaDays.RecentCloseRefused`, `QuotaBook.DayBackwardsHappens`). No caller
  passes an estimate (`repositories/scheduling.py:754-761`), and without one a release never fails
  (`QuotaBook.CloseWithoutEstimateSucceeds`).
- `release_and_settle` clamps a negative duration to zero, but the usage row it inserts still has to satisfy
  `finished_at >= started_at`, so the release of a started execution fails exactly when the clock is behind
  its recorded start (`LedgerAccounts.ReleaseSucceedsExactly`, `LedgerStories.ReleaseRefusedByClock`).
- A placement takes all capacity, on every node, from the other models sold under the same resource, and
  leaves every other pool as it was (`PoolCapacity.OtherPoolsAfterPlacement`,
  `PoolCapacity.H100LosesItsCapacity`).
- The round-robin cursor skips a service across its wrap at 2^63 unless the number of services divides 2^63
  (`RoundRobin.NCallsSufficeExactlyForDivisors`).
- A routing call that reaches a circuit after its cool-down also forgets its failures, so the failures counted
  are those since the last success or such a call (`GatewayRuns.BreakerFollowsFailureStreak`).
- An outbox event is reported inconsistent exactly when it was marked before its creation or its availability,
  as a clock running backwards or an application clock ahead of the database clock can do
  (`Outbox.RunIsConsistentExactly`, `Outbox.BackwardClockBreaksConsistency`,
  `Outbox.SkewedCreationBreaksConsistency`).
- The first task of the bounded scan is minimal in the policy order, and it is the first task of the full sort
  exactly when that task is within the scan limit in one of the three lane orders
  (`CandidateLanes.FirstCandidateAgreesExactly`, `CandidateLanes.TiedPair`).
- Preemption promises the smallest victim set. It picks the shortest prefix in priority order on each worker
  and then the least total priority, and both can cost victims (`Preemption.NeedlessVictim`,
  `Preemption.PassedOverWorker`, `Preemption.SmallestExactly`).
- The catalogue does not list the names of services under a logical model, and the router accepts them
  (`Catalogue.RoutedNamesExactly`).
- The binding check runs once, when the bindings are inserted (`repositories/scheduling.py:752`,
  `repositories/tasks.py:998`). Repeated later it would fail exactly once a bound device has been re-reported
  under another vendor (`LedgerBindings.BindingHoldsExactly`, `LedgerStories.RereportBreaksBinding`).

## Model

| member | source | states |
|---|---|---|
| ControlPlaneRuns.EveryRunKeepsInv | repositories/scheduling.py:433-776 | in every run from empty tables of placement, release, observation, worker, inventory, task and quota transactions, all ledger invariants hold together |
| ControlPlaneRuns.StepKeepsInv | repositories/scheduling.py:433-776 | each transaction keeps counters, quotas, bindings, queue counters and the usage ledger consistent |
| ControlPlaneRuns.ReachableReleaseSucceeds | repositories/reservations.py:161-287 | in every reachable state releasing an active execution raises no accounting error; it fails only when the clock is behind the recorded start |
| ControlPlaneRuns.ReleasedOnce | repositories/reservations.py:172-176 | after a successful release, whatever runs next, every further release of that execution is a no-op answering False |
| ControlPlaneRuns.ReleaseBillsOnce | repositories/reservations.py:219-255 | a release appends exactly one usage row, with task, project, the span from the recorded start to now and its cost, if the task had started, and none otherwise; earlier rows stay |
| Billing.NothingHeldCostsNothing | repositories/reservations.py:229-241 | an execution that holds nothing costs nothing |
| Billing.HourlyPrices | repositories/reservations.py:229-241 | one more core, gigabyte or accelerator for an hour adds exactly its own hourly price |
| Billing.CostAddsUpOverTime | repositories/reservations.py:229-241 | the cost of two periods is the sum of their costs |
| Billing.CostAddsUpOverHoldings | repositories/reservations.py:229-241 | the cost of two holdings is the sum of their costs, to the millicore and megabyte |
| Billing.ReleaseSettlesTheBill | repositories/reservations.py:257-284 | the project's settled cost for the day rises by exactly what the usage row bills, and no other project's row changes |
| Billing.BilledAsPlaced | repositories/reservations.py:221-255 | whatever runs between placement and release, the bill is for the resources the task asked for then, at the prices of that placement, since its recorded start |
| Billing.RunKeepsTerms | repositories/reservations.py:161-287 | no run changes what an execution or reservation row says about who holds what, where and at which prices |
| ControlPlaneRuns.StepKeepsLedger | repositories/reservations.py:221-255 | every transaction keeps at most one usage row per execution, and only for released executions |
| ControlPlaneRuns.PlacementFailsOnlyOnQuota | repositories/scheduling.py:752-761 | a placement that passes its checks can then be refused only by an exceeded quota, never by the binding check or inconsistent counters |
| ControlPlaneRuns.PlacementFindsConsistency | repositories/scheduling.py:446-761 | no placement is ever refused because the tables are inconsistent: only for a conflict, a missing quota row, a table constraint or an exceeded quota |
| PlacementRules.PlaceSucceedsExactly | repositories/scheduling.py:446-776 | a placement succeeds exactly when the task is queued, ready, uncancelled and unreserved, the worker is online with a slot, CPU and memory for it, the admission is for this worker, session and node with enough recomputed capacity or the requested devices are free healthy NVIDIA devices of the worker, and every quota limit leaves room |
| PlacementRules.PlacementBinds | repositories/scheduling.py:551-578 | the bound devices are exactly the requested healthy NVIDIA devices of the worker, and none for an admitted placement |
| PoolLedger.EveryRunStaysWithinNodes | repositories/scheduling.py:532-550 | in every run from empty tables whose admissions carry the capacity recomputed from the current rows, with releases, restarts and all other transactions between, what admitted executions and replicas really hold of a pool on a node stays within its compatible devices |
| PoolLedger.OpenPoolSeesAll | repositories/admission.py:2062-2106 | while a pool has capacity, every execution that uses it is charged to its node; restarts of workers hide none |
| PoolLedger.CapacityIsWhatIsLeft | repositories/admission.py:389-451 | a positive capacity is exactly the compatible devices less what executions and replicas really hold |
| PoolLedger.OrderDoesNotMatter | repositories/admission.py:2038-2118 | the planner may read the reservation rows in any order |
| LedgerRows.EveryRunMirrors | repositories/scheduling.py:671-741 | in every run each execution row agrees with its reservation on what was placed, what was observed and whether it finished |
| LedgerRows.ObserveSucceedsExactly | repositories/reservations.py:81-158 | an observation is accepted exactly for an active device-plugin execution, with as many distinct non-blank ids of its vendor as it holds, unless a different one was recorded |
| LedgerRows.StaleSessionChangesNothing | repositories/workers.py:108-140 | a heartbeat, status or report from an ended session changes nothing |
| LedgerRows.CurrentSessionSetsStatus | repositories/workers.py:108-128 | a current message sets the status alone, and a heartbeat does not end draining |
| LedgerRows.RegistrationSets | repositories/workers.py:37-105 | registration takes over the machine, keeps what is reserved and drains the worker exactly when more is reserved than there is |
| LedgerRows.InventoryFollowsReport | repositories/workers.py:131-228 | after a report every reported device has a row with what was said last, the other devices of the worker are unhealthy, and nothing else changes |
| LedgerRows.InventoryRefusedExactly | repositories/workers.py:131-228 | a current report is refused exactly when it names a device twice that the worker did not have |
| LedgerRows.WaitingMeans | repositories/tasks.py:1707-1715 | a task holds a queue place exactly while it may still be picked up or is being picked up |
| LedgerRows.CancelledStaysOut | repositories/tasks.py:1690-1715 | a cancelled task is marked, cannot be placed and cannot be cancelled again |
| LedgerRows.BindingCheckCatches | repositories/reservations.py:38-78 | the binding check fails for a wrong number of devices, another vendor, and unrecorded or different ids |
| ControlPlaneRuns.CancelSucceeds | repositories/tasks.py:1707-1715 | cancelling a waiting task never finds its project's queue counter empty |
| ControlPlaneRuns.DevicePluginOwnsNone | repositories/reservations.py:124-136 | a device-plugin reservation owns no device binding |
| ControlPlaneRuns.ObservedOnce | repositories/reservations.py:138-158 | an observation is recorded once: repeating it changes nothing and returns False, a different one is refused |
| ControlPlaneRuns.StepKeepsCapacity | repositories/workers.py:92-102 | every transaction keeps a worker that is not flagged overcommitted within its allocatable CPU and memory |
| ControlPlaneRuns.EveryRunKeepsCapacity | repositories/scheduling.py:469-483 | in every run from empty tables, a worker not flagged overcommitted has no more CPU or memory reserved than it can allocate |
| LedgerAccounts.ReleaseSucceedsExactly | repositories/reservations.py:172-287 | when counters equal sums, releasing an active reservation succeeds exactly unless the clock is behind the task's start |
| LedgerStories.ReleaseRefusedByClock | repositories/reservations.py:225-255 | a run from empty tables, through placement, image pull and start, after which an active execution cannot be released because the release clock is behind the recorded start |
| LedgerStories.RereportBreaksBinding | repositories/workers.py:144-220 | a run from empty tables after which an inventory report makes the binding check false for an active execution |
| LedgerStories.PromisesFailForOneTask | repositories/reservations.py:66-78 | both runs, with concrete values |
| LedgerAccounts.WorkerCoversActive | repositories/reservations.py:182-192 | the worker's counters always cover an active reservation, so the capacity check never fires |
| LedgerAccounts.QuotaCoversActive | repositories/quotas.py:466-479 | the project's counters always cover an active reservation, typed accelerators included |
| LedgerAccounts.HeldAfterInsert | repositories/scheduling.py:708-741 | inserting a reservation raises the sums of its worker and project by its own resources and no others |
| LedgerAccounts.HeldAfterRelease | repositories/reservations.py:208-214 | releasing a reservation lowers the sums of its worker and project by its own resources and no others |
| LedgerAccounts.PlaceKeepsWorkers | repositories/scheduling.py:662-666 | placement keeps every worker's counters equal to its active reservations |
| LedgerAccounts.ReserveKeepsQuotas | repositories/quotas.py:325-333 | reserving keeps every project's counters equal to its active reservations and within limits |
| LedgerAccounts.ReleaseKeepsWorkers | repositories/reservations.py:193-197 | release keeps every worker's counters equal to its active reservations |
| LedgerAccounts.ReleaseKeepsQuotas | repositories/quotas.py:485-497 | settling keeps every project's counters equal to its active reservations |
| LedgerAccounts.CostIsNonNegative | repositories/reservations.py:228-241 | a settled cost is never negative |
| LedgerBalance.StepKeepsBalance | repositories/workers.py:19-313 | every transaction keeps worker and project counters equal to the sums over active reservations |
| LedgerBalance.WorkerStepKeepsCounters | repositories/workers.py:71-128 | registration, heartbeat, status, expiry and inventory never change a reserved counter, and new workers start at zero |
| LedgerBindings.StepKeepsExact | repositories/scheduling.py:742-752 | every transaction keeps: one active binding per device, and each exact-device reservation owning exactly its devices, on its own worker, as recorded |
| LedgerBindings.PlacementBindsExactly | repositories/reservations.py:38-78 | the binding check inside placement never fails |
| LedgerBindings.PlacementOwns | repositories/scheduling.py:551-578 | a placed exact-device reservation owns exactly as many devices as requested and records their uuids |
| LedgerBindings.PlaceKeepsExclusive | repositories/scheduling.py:569-578 | placement never binds a device that is already bound |
| LedgerBindings.ReleaseKeepsExact | repositories/reservations.py:199-211 | release frees exactly the execution's bindings and leaves the others |
| LedgerBindings.InventoryKeepsExact | repositories/workers.py:144-220 | an inventory report keeps every binding, its worker and its recorded uuids |
| LedgerBindings.BindingHoldsExactly | repositories/reservations.py:66-78 | the binding check repeated later holds exactly while no bound device was re-reported under another vendor |
| LedgerQueue.StepKeepsQueues | repositories/quotas.py:194-262 | every transaction keeps each project's queue counter equal to its number of waiting tasks |
| LedgerQueue.WaitingIsCounted | repositories/quotas.py:281-283 | a waiting task is always counted, so placement never finds the queue counter empty |
| ControlPlane.Repositories.constructor | repositories/scheduling.py:433-776 | the empty tables satisfy every invariant |
| ControlPlane.Repositories.Place | repositories/scheduling.py:433-776 | placement changes task, worker, execution, reservation, bindings and quota together or changes nothing and says why; it keeps every invariant, under which no refusal is an inconsistency |
| ControlPlane.ReleaseLinks | repositories/reservations.py:199-209 | the loop over bindings releases exactly those of the execution |
| ControlPlane.Repositories.ReleaseAndSettle | repositories/reservations.py:161-287 | release undoes counters, bindings and quota and writes usage together, keeps every invariant, and under it always answers whether the execution was active, unless the clock is behind its start |
| ControlPlane.Repositories.RegisterWorker | repositories/workers.py:37-105 | registration replaces capacity, keeps reserved counters, recomputes the overcommitted flag and keeps every invariant |
| ControlPlane.TakeOffline | repositories/workers.py:287-313 | the loop takes exactly the stale online workers offline |
| ControlPlane.Collect | repositories/workers.py:150-185 | of several reports for one device the last one counts |
| ControlPlane.Inventory | repositories/workers.py:182-220 | the loops update known devices, add new ones and mark the unreported ones unhealthy; none is removed |
| ControlPlane.Repositories.ReplaceGpuInventory | repositories/workers.py:131-228 | a report is stored whole or refused, for a stale session or a new device named twice, and every invariant is kept |
| Quotas.RunsStayWithinLimits | repositories/quotas.py:117-498 | no run of quota operations, on any days, exceeds a limit, makes a counter negative or separates totals from typed counters |
| Quotas.StepKeepsInv | repositories/quotas.py:520-551 | each quota operation keeps counters non-negative, totals equal to typed sums, and every limit |
| Quotas.ReserveAdmitsExactly | repositories/quotas.py:281-333 | an execution is admitted exactly when a task is queued and the resulting state is within every limit and the daily cost |
| Quotas.CommitAdmitsExactly | repositories/quotas.py:370-439 | a service commitment is admitted exactly when the counters cover it and the result is within every limit |
| Quotas.LimitsReplacedExactly | repositories/quotas.py:146-188 | limits are replaced exactly by those the current counters respect |
| Quotas.BadInputExactly | repositories/quotas.py:510-518 | requests, settlements and commitments are rejected as input exactly when an amount in them is negative |
| Quotas.BadLimitsExactly | repositories/quotas.py:117-145 | limits are rejected as input exactly when one is negative |
| Quotas.CountedByVendor | repositories/quotas.py:554-566 | accelerators of an unnamed vendor count as NVIDIA's |
| QuotaRows.QuotaRow.constructor | repositories/quotas.py:62-75 | a first row has nothing in use and, with valid limits, is sound and within them |
| QuotaRows.QuotaRow.AdmitQueuedTask | repositories/quotas.py:194-204 | admission raises the queue counter by one or refuses without change, and keeps the row sound and within limits |
| QuotaRows.QuotaRow.ReleaseQueuedTask | repositories/quotas.py:252-262 | the queue counter falls by one or the call is refused, and the row stays sound and within limits |
| QuotaRows.QuotaRow.ReserveExecution | repositories/quotas.py:265-334 | on a sound row within limits, admits exactly the valid requests with a queued task whose result stays within every limit and the daily cost; keeps the row so, and otherwise changes nothing |
| QuotaRows.QuotaRow.ReleaseExecution | repositories/quotas.py:442-498 | an execution's resources, and its estimate if made on the accounting day, are given back and its cost settled, or nothing changes; the row stays sound and within limits |
| QuotaRows.QuotaRow.ReplaceServiceCommitment | repositories/quotas.py:337-439 | on a sound row within limits, accepts exactly the valid moves that the counters cover and that stay within every limit; keeps the row so, and otherwise changes nothing |
| QuotaRows.QuotaRow.ReplaceLimitsWith | repositories/quotas.py:117-191 | limits are replaced, leaving the row sound and within the new ones, or refused without change |
| QuotaBook.RunsStayExact | repositories/quotas.py:265-498 | over every run with non-decreasing days, counters are the sums over open reservations, reserved cost the estimates open from the accounting day and settled cost what was settled on it |
| QuotaBook.EmptyBookIsExact | repositories/quotas.py:62-75 | a fresh project's empty book is exact, so runs can start from it |
| QuotaBook.CloseNeverFails | repositories/quotas.py:466-484 | a release passing its own creation day never fails, even across midnight |
| QuotaBook.CloseSucceedsExactly | repositories/quotas.py:480-484 | while days have only gone forward, a release on any day is refused exactly when the day goes back to its reservation's own day while a non-zero estimate is open |
| QuotaBook.CloseWithoutEstimateSucceeds | repositories/quotas.py:442-484 | without an estimate a release never fails, whatever the clocks did |
| QuotaBook.DayBackwardsHappens | repositories/quotas.py:78-93 | from every state that can reserve, one transaction with another day's clock turns a release that would succeed into a refusal |
| QuotaDays.EveryRunFollows | repositories/quotas.py:265-498 | over every run on arbitrary days, the reserved cost is the open estimates made since the row last changed its day, less those that older reservations of that day took back since |
| QuotaDays.CloseRefusedExactly | repositories/quotas.py:466-484 | after every such run, a release is refused exactly when its reservation was made on that day and its estimate exceeds that amount |
| QuotaDays.StrayCloseRefusesRecent | repositories/quotas.py:480-497 | once the row left a day and came back, closing an older reservation of the day makes the close of a newer one fail on the same day |
| QuotaDays.RecentCloseRefused | repositories/quotas.py:569-576 | a run from a project's first row into that state |
| ServiceBook.PutKeepsBalance | repositories/services.py:345-376 | creating or scaling a service never finds the counters below what it holds and keeps them the sums over services; only a limit refuses it |
| ServiceBook.RunsStayBalanced | repositories/quotas.py:337-439 | over every run of service and task operations the service counters are the sums over desired replicas |
| ServiceBook.EveryRunStaysBalanced | repositories/quotas.py:337-439 | the same from a project's first quota row and no service |
| ServiceBook.CountsServices | repositories/quotas.py:370-439 | the services counter is the number of services that want replicas |
| PoolPlanner.PlanRemaining | repositories/admission.py:216-327 | the planner's loops compute free devices less located reservations less replicas, or refuse the pool |
| PoolPlanner.CountDevices | repositories/admission.py:248-257 | one pass counts the physical devices of each candidate node |
| PoolPlanner.ChargeDeferred | repositories/admission.py:281-292 | located reservations are subtracted in any order, and the plan is refused exactly when one does not fit |
| PoolPlanner.ChargeServices | repositories/admission.py:294-327 | replicas are charged in order to their observed node |
| PoolPlanner.MoreServicesNeverHelp | repositories/admission.py:294-327 | inserting a commitment at any position never raises what the plan leaves on any node |
| PoolPlanner.MoreDeferredNeverHelps | repositories/admission.py:259-292 | more deferred usage, wherever charged, never raises what the plan leaves |
| PoolCapacity.Classify | repositories/admission.py:2038-2118 | the loop charges each reservation to one slot, with or without known node owners, and holds exactly the per-slot totals |
| PoolCapacity.ClassificationIsUnique | repositories/admission.py:2038-2118 | the usage mapping is determined by those totals |
| PoolCapacity.AvailableCapacity | repositories/admission.py:773-846 | batch capacity of a node from inventory, services, reservations and the profile catalogue |
| PoolCapacity.CompatibleIsPhysical | repositories/admission.py:330-386 | compatible devices are physical devices of a candidate node |
| PoolCapacity.CompatibleExactly | repositories/admission.py:330-386 | a node counts exactly when one of its devices of the resource is usable and all of them have the vendor, kind, model, memory, profile and capabilities asked for; then it offers its usable ones |
| PoolCapacity.CapacityFallsWithServices | repositories/admission.py:389-451 | a further service commitment never raises any capacity |
| PoolCapacity.CapacityFallsWithReservations | repositories/admission.py:389-451 | enlarging any deferred reservation never raises any capacity |
| PoolCapacity.UnlocatedUsageClosesPool | repositories/admission.py:259-280 | usage whose node or resource is unknown and may concern the pool forces its capacity to zero |
| PoolCapacity.LostReservationClosesPool | repositories/admission.py:2062-2106 | a reservation of the pool's vendor whose worker restarted or whose node is missing or invalid, and whose profile is unknown or sells the pool's resource, forces the capacity to zero |
| PoolCapacity.UnknownProfileClosesWorker | repositories/admission.py:2076-2090 | a reservation of unknown profile on a known node closes every pool of its vendor with a device of the node's worker |
| PoolCapacity.ChargedToNodeExactly | repositories/admission.py:2066-2100 | a reservation is charged to a node exactly when its session, node name, only owner and profile are all known, and left aside exactly when its known node has no single owner |
| PoolPlanner.UnattributableUsageRefusesPlan | repositories/admission.py:259-280 | any unattributable usage that may concern the pool, however small, refuses the plan |
| NodeNames.ValidExactly | core/kubernetes_names.py:8-19 | the label-by-label check accepts exactly the names of at most 253 lower-case letters, digits, inner hyphens and dots between them without 64 characters in a row that lack a dot |
| PoolCapacity.UnplacedReplicaClosesPool | repositories/admission.py:294-311 | a replica of unknown vendor, resource or placement that may concern the pool forces its capacity to zero |
| PoolCapacity.ReservationOnOtherModelClosesPool | repositories/admission.py:281-292 | a reservation on a node without the planned model closes that model's pool everywhere |
| PoolCapacity.AdmitThenReplan | repositories/scheduling.py:532-550 | placing k within a computed capacity lowers the recomputed capacity of that node by exactly k and leaves the pool's other nodes alone |
| PoolCapacity.PlacementClosesOtherModels | repositories/admission.py:281-292 | a placement closes every other model sold under the same resource |
| PoolCapacity.OtherPoolsAfterPlacement | repositories/admission.py:259-292 | what a placement does to every other pool: all capacity is lost exactly for another model of the same vendor and resource, and none is otherwise |
| PoolCapacity.OtherModelLosesItsCapacity | repositories/admission.py:281-292 | with one device each of two models on two nodes, both capacities are one, and placing the one makes the other zero |
| PoolCapacity.H100LosesItsCapacity | repositories/admission.py:281-292 | the same for two concrete devices |
| PoolCapacity.IdlePoolOffersAll | repositories/admission.py:428-451 | with nothing in use, the capacity is every compatible device |
| PoolCapacity.CapacityIsExact | repositories/admission.py:428-451 | a positive capacity is the compatible devices less everything in use on the node |
| PoolCapacity.PlanAfterPlacement | repositories/admission.py:281-327 | one more located reservation within what is left lowers its node by exactly that much through every later charge |
| PoolCapacity.RunsNeverOvercommit | repositories/admission.py:389-451 | over any sequence of admitted placements, deferred plus service usage on a node stays within its compatible devices |
| ServiceCapacity.AvailableByNode | repositories/admission.py:1650-1713 | per-node availability of a candidate equals the batch capacity of that node, for unambiguous compatible nodes |
| ServiceCapacity.OfferedExactly | repositories/admission.py:1650-1680 | a compatible node is offered exactly when no other worker is compatible on a node of that name |
| ServiceCapacity.ReplicaSlots | repositories/admission.py:1714-1716 | the loop adds up whole gangs per node |
| ServiceCapacity.CapacityMeansPackable | repositories/admission.py:1740-1744 | available capacity reaches the gang size exactly when every replica's gang can be packed on one node |
| ServiceCapacity.CapacityForNoReplicas | repositories/admission.py:1740-1744 | a service without replicas is admitted exactly where some node is compatible or has room for a gang |
| ServiceCapacity.QuotaMeansCommittable | repositories/admission.py:454-481 | in a state within limits, available quota reaches the gang size exactly when the accelerator checks of the commitment pass |
| Graphs.ContainsCycle | repositories/dag.py:511-529 | the scan terminates and answers true exactly when the edge set has a directed cycle |
| Graphs.BuildGraph | repositories/dag.py:512-518 | the successor and indegree maps describe exactly the edge set |
| Graphs.KahnVerdict | repositories/dag.py:529 | a node is left over exactly when there is a cycle |
| JobGroups.ResolveTask | repositories/dag.py:466-508 | a task's state and its waiting, failed and blocking prerequisites |
| JobGroups.GroupFailsExactlyWithATask | repositories/dag.py:577-594 | a group is failed exactly when one of its tasks has finally failed |
| JobGroups.GroupStatusMeans | repositories/dag.py:577-594 | a group has succeeded when all tasks have, is running while one is active and none failed, and pending otherwise |
| JobGroups.AcyclicGroupIsNeverStuck | repositories/dag.py:290-325 | in an accepted group without a failed task and not finished, some unfinished task is ready |
| DependencyTable.CheckBatch | repositories/dag.py:401-437 | the batch loop accepts exactly the insertable batches |
| DependencyTable.DependencyRepository.AddDependencies | repositories/dag.py:357-439 | edges are inserted exactly when the batch is acceptable, otherwise nothing changes |
| DependencyTable.DependencyRepository.Submit | repositories/tasks.py:367-520 | submission inserts a task with its dependency rows or changes nothing |
| DependencyTable.GroupCheckIsEnough | repositories/dag.py:417-419 | checking one group's graph is enough for the union of all groups |
| DependencyTable.CycleStaysInGroup | repositories/dag.py:399-400 | every cycle of the union lies within one group |
| DependencyTable.StepKeepsInv | repositories/dag.py:357-439 | every insertion and submission keeps the union acyclic |
| DependencyTable.RunsStayAcyclic | repositories/dag.py:357-439 | over every run the union of all dependency graphs is acyclic |
| DependencyTable.RunsKeepProjects | repositories/dag.py:357-439 | in every run dependencies join tasks of one project only |
| DependencyTable.FirstStatusMatchesResolution | repositories/tasks.py:480-520 | a submitted task starts queued, cancelled or pending exactly as the resolver would call it ready, cancelled, or waiting and blocked |
| DependencyTable.ReachableGroupIsNeverStuck | repositories/dag.py:290-325 | in every reachable table, an unfinished group without a failed task has an unfinished task whose dependencies all succeeded |
| Gateway.ScanFindsFirst | repositories/gateway_routing.py:346-400 | the scan selects the first candidate in order that is not excluded, not stopped by its circuit and has an endpoint |
| Gateway.ScanCandidates | repositories/gateway_routing.py:346-400 | the loop over candidates computes that scan |
| Gateway.TryInOrder | repositories/gateway_routing.py:346-400 | a route is found exactly when some ordered candidate takes the request, and it is the first |
| Gateway.GatewayRepository.ChooseRoute | repositories/gateway_routing.py:207-400 | the answer is the one right route, and the new cursor and the reset circuits are those of that route |
| Gateway.GatewayRepository.RecordOutcome | repositories/gateway_routing.py:403-434 | success closes the circuit, failures count up and open it at the threshold |
| GatewayRuns.BreakerFollowsFailureStreak | repositories/gateway_routing.py:346-434 | after any history of outcomes and routing calls a circuit counts the failures since the last success or the last call after its cool-down, and is open exactly from the threshold on |
| GatewayRuns.ScanTouches | repositories/gateway_routing.py:346-400 | a routing scan resets exactly the cooled-down circuits of the candidates it tries |
| GatewayRuns.CircuitsFollowHistories | repositories/gateway_routing.py:346-434 | over every run of routing calls and reports, each circuit is what its own history makes of it |
| GatewayRuns.BlockedExactlyWhileCoolingDown | repositories/gateway_routing.py:346-434 | in every reachable state a vendor is blocked exactly while its streak has reached the threshold and the cool-down after its last failure is not over |
| Gateway.FirstOfRotationIsNearest | repositories/gateway_routing.py:523-550 | the first taker of a rotated list is the one nearest to the cursor |
| Gateway.RightRouteIsUnique | repositories/gateway_routing.py:207-400 | at most one answer to a routing call is right |
| GatewayPreference.PreferredServiceAnswers | repositories/gateway_routing.py:290-400 | a call for a model is answered exactly when a service with a ready variant, a permitted and not excluded vendor, a live replica and no open circuit exists, by such a service and, unless balanced, by the first by vendor preference, age and id |
| GatewayPreference.PreferenceIsHonoured | repositories/gateway_routing.py:473-490 | a preference policy goes to the preferred vendor whenever one of its services can answer |
| GatewayPreference.StrictnessIsHonoured | repositories/gateway_routing.py:473-505 | a strict policy never goes to the other vendor, and no call to an excluded one |
| GatewayPreference.ReplicaOfTheTurn | repositories/services.py:1112-1147 | the chosen replica has exactly cursor modulo their number of routable replicas before it, by ordinal and id |
| Gateway.BalancedRouteIsRoundRobin | repositories/gateway_routing.py:346-400 | under the balanced policy a routing call picks the taker nearest to the cursor and moves the cursor just past it |
| RoundRobin.AdvanceIsModular | repositories/gateway_routing.py:523-550 | advancing the cursor is addition modulo 2^63 |
| RoundRobin.CursorCountsSteps | repositories/gateway_routing.py:523-550 | the cursor stays in range and equals the total steps modulo 2^63 |
| RoundRobin.ChosenWithinNCalls | repositories/gateway_routing.py:346-400 | without a wrap, a service that stays routable is chosen within n successful calls |
| RoundRobin.ChosenWithinTwiceN | repositories/gateway_routing.py:346-400 | across any wrap a service that stays routable is chosen within 2n successful calls |
| GatewayRuns.AnsweredCallsAreServed | repositories/gateway_routing.py:346-400 | in any run of routing calls and reports over which a balanced model keeps its list of service ids, each call judged on its own rows, the answered calls are a round-robin walk of its cursor |
| GatewayRuns.PicksNameServices | repositories/gateway_routing.py:346-400 | the positions of that walk are those of the services that answered |
| GatewayRuns.ReplicasLeaveTheList | repositories/services.py:1112-1147 | changes of replicas, health and replica cursors, as routing itself makes, leave the list of services as it is |
| GatewayRuns.CursorStaysWithinColumn | repositories/gateway_routing.py:523-550 | in any run, whatever happens to services and policies, the stored cursor stays below 2^63 |
| GatewayRuns.BalancedRoutingIsFair | repositories/gateway_routing.py:346-400 | in such a run a service that could take every answered call answers one of the first n, unless the cursor wraps meanwhile and n does not divide 2^63 |
| GatewayRuns.BalancedRoutingIsFairAcrossWraps | repositories/gateway_routing.py:346-400 | from any cursor and across any wrap it answers one of the first 2n |
| RoundRobin.WrapSkipsLast | repositories/gateway_routing.py:523-550 | across the wrap the last service can be missed for n calls |
| RoundRobin.NCallsSufficeExactlyForDivisors | repositories/gateway_routing.py:523-550 | n calls always suffice exactly when n divides 2^63 |
| Catalogue.DirectNames | repositories/gateway_routing.py:130-147 | the directly listed names are exactly the unambiguous names of services with a routable replica |
| Catalogue.AvailableModelIds | repositories/gateway_routing.py:149-190 | a logical model is listed exactly when some eligible service can serve it |
| Catalogue.ListAvailableModels | repositories/gateway_routing.py:71-204 | listed ids are unique and are exactly the direct and logical names |
| Catalogue.ListedServiceIsRouted | repositories/gateway_routing.py:137-147 | a listed service name gets a route |
| Catalogue.ModelListedExactlyWhenRouted | repositories/gateway_routing.py:149-199 | a logical model's public name is listed exactly when routing it succeeds |
| Catalogue.ListedNamesAreRouted | repositories/gateway_routing.py:71-204 | every listed id gets a route with the same state and clock |
| Catalogue.RoutedNamesExactly | repositories/gateway_routing.py:207-400 | the names that get a route are exactly the listed ones and those of services under a ready model that someone can serve, unless some model has that public name |
| Outbox.ProcessedAtMostOnce | repositories/outbox.py:66-76 | over every interleaving an event is marked processed at most once, by its lock holder |
| Outbox.ProcessedRowsAreFinal | repositories/outbox.py:33-95 | a processed event never changes again |
| Outbox.LeaseIsExclusive | repositories/outbox.py:33-63 | an unexpired lock keeps its one owner and blocks every other claim |
| Outbox.ProcessedEventsAreConsistent | repositories/diagnostics.py:949-958 | when marks follow their claims and claims follow creation in time, every processed event has no lock, no error and a time at or after its creation and its availability |
| Outbox.MonotoneClockSuffices | repositories/outbox.py:50-76 | a clock that never runs backwards makes marks follow their claims |
| Outbox.MarkIsConsistentExactlyWhenDue | repositories/outbox.py:66-76 | a mark is consistent exactly when its time is at or after the event's creation and its availability |
| Outbox.ReportedExactly | repositories/diagnostics.py:949-958 | diagnostics report exactly the processed events that are locked, carry an error or were processed too early |
| Outbox.RunIsConsistentExactly | repositories/diagnostics.py:949-958 | over every run, all processed events are consistent exactly when no mark was made before its event was created or available |
| Outbox.BackwardClockBreaksConsistency | repositories/diagnostics.py:949-958 | a clock behind the claim yields an inconsistent processed event |
| Outbox.SkewedCreationBreaksConsistency | repositories/outbox.py:15-30 | an application clock ahead of the database clock yields an inconsistent processed event although the database clock never runs backwards |
| Outbox.BackoffGrowsToItsCap | repositories/outbox.py:79-95 | retry delays never shrink and never pass the configured cap or 1024 seconds |
| Outbox.OutboxRepository.Add | repositories/outbox.py:15-30 | a new event is available and unlocked |
| Outbox.OutboxRepository.ClaimBatch | repositories/outbox.py:50-63 | a claim locks exactly the oldest claimable batch for the owner and changes nothing else |
| Outbox.OutboxRepository.MarkProcessed | repositories/outbox.py:66-76 | an event is processed exactly when the caller holds its lock |
| Outbox.OutboxRepository.MarkFailed | repositories/outbox.py:79-95 | a failure by the lock holder releases the lock and delays the event |
| Outbox.PendingQuery | repositories/outbox.py:33-47 | the query returns the oldest claimable events up to the limit, without repeats |
| CandidateLanes.SqlPriorityMirrorsPolicy | repositories/scheduling.py:86-109 | the SQL priority equals the policy's exactly unless a task was never queued and its priority exceeds the cap |
| CandidateLanes.SqlShareMirrorsPolicy | scheduler/policies.py:195-209 | the SQL dominant share equals the policy's |
| CandidateLanes.FairLaneStartsAtPolicyMinimum | repositories/scheduling.py:174-249 | the fair lane's first task is minimal in the policy key over all queued tasks |
| CandidateLanes.ChooseCandidates | repositories/scheduling.py:252-355 | the merged lanes are sorted and repeat-free, hold exactly the tasks of the three lanes, and start with a task of least policy key; refused for a limit or aging interval below one |
| CandidateOrder.FirstCandidateObeysPolicy | repositories/scheduling.py:345-355 | against every eligible task, the first candidate is schedulable if that task is, then has at least its aged priority, then at most its project share, then at most its queue order |
| CandidateOrder.CandidatesFollowPolicy | repositories/scheduling.py:345-355 | every candidate stands so towards every later one, with the id deciding last |
| CandidateOrder.LanesConsiderExactly | repositories/scheduling.py:110-249 | the scan considers exactly the tasks with fewer than the limit ahead of them by aged priority, by raw priority, or, for the first of a project, by share among such |
| CandidateOrder.PriorityAges | scheduler/policies.py:89-100 | a task keeps its priority for the first interval, gains one for every full interval, never loses by waiting and stays within 100 |
| CandidateOrder.UnqueuedPriority | scheduler/policies.py:92-93 | a task that was never queued keeps its priority |
| CandidateOrder.ShareIsDominant | scheduler/policies.py:195-209 | a project's share is the largest of its shares of CPU, memory and accelerators |
| CandidateLanes.FirstCandidateIsMinimal | repositories/scheduling.py:284-355 | the first candidate has the least policy key over all eligible queued tasks |
| CandidateLanes.LanesReachExactly | repositories/scheduling.py:284-355 | the lanes reach a task exactly when fewer than the limit precede it in the aged, the raw or the fair order |
| CandidateLanes.FirstCandidateAgreesExactly | repositories/scheduling.py:284-355 | the bounded scan names the full sort's first task exactly when that task is within the limit in one of the three orders |
| CandidateLanes.FirstCandidateAgreesWithoutTies | repositories/scheduling.py:284-355 | without ties the bounded scan and the full sort agree |
| CandidateLanes.TiesCanDisagree | repositories/scheduling.py:284-355 | tied tasks can be ordered the other way |
| CandidateLanes.TiedPair | repositories/scheduling.py:284-355 | such a tied pair exists |
| GangPlacement.ChooseGang | scheduler/serving.py:60-144 | exactly the requested number of eligible devices from one worker whenever some worker has enough, otherwise the first failing filter stage |
| GangPlacement.BestPlacement | scheduler/serving.py:126-144 | the chosen worker has least surplus and the gang the least total free memory among such workers |
| GangPlacement.CheapestGangIsCheapest | scheduler/serving.py:130-138 | a sorted prefix has the least total free memory of any gang of its size |
| GangPlacement.LeastScoreIsBest | scheduler/serving.py:136-144 | the least score is the least surplus, then the least memory |
| GangPlacement.PlacedDevicesAreEligible | scheduler/serving.py:82-117 | every placed device passes all filters |
| GangPlacement.EligibleDevices | scheduler/serving.py:82-117 | the filters keep exactly the real or allowed devices of the requested model with enough free memory, in order |
| GangPlacement.InvalidExactly | scheduler/serving.py:72-75 | a request is invalid exactly when an amount is negative or the model is blank |
| Preemption.EvaluateMeansAccepts | scheduler/policies.py:145-188 | the ordered tests accept exactly when every requirement holds, with one count of devices passing all filters |
| Preemption.RoomMeans | repositories/scheduling.py:862-897 | stopping victims makes room exactly when the worker is open to the task and, with what they hold given back, has a slot, CPU, memory and enough fitting devices |
| Preemption.SelectOn | repositories/scheduling.py:862-897 | on one worker the loop finds the shortest prefix of victims that makes room |
| Preemption.PrefixFoundExactly | repositories/scheduling.py:867-897 | some prefix makes room exactly when some set of the worker's victims does |
| Preemption.ChooseVictims | repositories/scheduling.py:856-902 | nothing is chosen exactly when no set of one worker's victims makes room; otherwise the chosen plan has the best score |
| Preemption.StoppingMoreHelps | scheduler/policies.py:145-188 | stopping more victims never takes room away |
| Preemption.SmallestWhenNeeded | repositories/scheduling.py:862-897 | no set of fewer than m of a worker's victims works if stopping all makes no room or the m - 1 that free most of some one resource leave too little of it |
| Preemption.SmallestWhenAllNeedThatMany | repositories/scheduling.py:786-791 | the chosen set is a smallest one over all workers if every worker needs as many for some resource, whatever else is short |
| Preemption.SmallestOnWorkerExactly | repositories/scheduling.py:862-897 | on one worker with one short resource, no set of fewer than m victims works exactly when m is one or the worker needs m in that sense |
| Preemption.SmallestExactly | repositories/scheduling.py:786-791 | with one short resource per worker, the chosen set is a smallest one over all workers exactly when it has one victim or every worker needs at least as many |
| Preemption.LargestFreesMost | repositories/scheduling.py:862-897 | no selection frees more of a resource than the same number of victims that free most of it |
| Preemption.MoreThanNeeded | repositories/scheduling.py:786-791 | the chosen prefix can stop a victim that was not needed |
| Preemption.NeedlessVictim | repositories/scheduling.py:786-791 | such a choice, on a worker with 4000 millicores and two running tasks |
| Preemption.CheaperPlanStopsMore | repositories/scheduling.py:888-902 | a plan with more victims of less total priority is preferred to a smaller one on another worker |
| Preemption.PassedOverWorker | repositories/scheduling.py:888-902 | such a choice: two tasks are stopped on one worker where one would do on another, although on each worker alone the choice is a smallest one |
| LockOrder.PlaceIsDisciplined | repositories/scheduling.py:446-510 | placement takes its row locks in rank order, devices only under their worker |
| LockOrder.AdmitIsDisciplined | repositories/admission.py:655-688 | service admission takes project, quota and workers in rank order, devices only under their workers |
| LockOrder.ReleaseIsDisciplined | repositories/reservations.py:172-220 | release takes reservation, quota and worker in rank order, links and execution only under the reservation |
| LockOrder.WaitsAreRanked | repositories/admission.py:1149-1173 | nobody ever waits for a guarded row |
| LockOrder.RunsNeverDeadlock | repositories/scheduling.py:446-510 | no set of these transactions ever waits in a cycle |
| LockOrder.AloneItFinishes | repositories/scheduling.py:446-510 | a transaction that runs alone gets all its locks |
| LockOrder.SomeTransactionMoves | repositories/reservations.py:177-181 | while any transaction is open, some open one is not blocked |

## Left out

- PoolCapacity.AvailableCapacity: always asks for one named node, as every caller does; the variant that sums over all nodes of a worker is not modelled.
- ServiceCapacity.AvailableByNode: takes the variant's profile and model group as given; grouping devices by model, candidate ids and the externally-allocated health accepted for zero replicas are not modelled.
- JobGroups.ResolveTask: the id lists of a resolution are kept as multisets, not in sorted order.
- Catalogue.ListAvailableModels: the display order and creation times of entries are not modelled.
- Gateway.GatewayRepository.ChooseRoute: preflight skip reasons and the per-replica cursor and active-request counters are not modelled.
- Preemption.ChooseVictims: the query that orders eligible lower-priority victims per worker is an input; writing the plans and events is not modelled.
- ControlPlane.Repositories.ReplaceGpuInventory: field validation, device index, memory and profile columns are not modelled.
- DependencyTable.DependencyRepository.Submit: only task rows and dependency rows; the queue counter of a submission is in `Ledger.Submit`, the other admission checks are not modelled.
- Preemption.SmallestExactly: exact when each worker is short of one resource. When several are short on a worker, choosing fewest victims is a covering problem over several resources, and only the sufficient condition `Preemption.SmallestWhenAllNeedThatMany` is stated.
- GatewayRuns.BalancedRoutingIsFair: for a model whose list of eligible services stays the same during the run; a service that joins or leaves moves the others' positions.
- ControlPlane.Repositories.Place: dependency readiness, the snapshot evaluation and the recomputed pool capacity are inputs; task events, leases and the outbox message are not written.
- PoolLedger.EveryRunStaysWithinNodes: the planner's inventory and the service commitments stay the same during the run.
- LockOrder.RunsNeverDeadlock: covers the explicit row locks of placement, logical-service admission and a single release; implicit foreign-key share locks, the row-creating fallback of quota initialisation, service scaling and the conservative repair, which locks workers in another order, are not modelled.
- Legacy paths: direct claims by Phase I workers, reservations without bindings from before the migration, and the capacity release used when no reservation exists.
- Artifact byte reservations: the counter is part of the quota row but nothing here changes it.
- Daily cost as a hard limit: settlement adds cost without a check, so only conservation is stated.
- Float rounding of reserved CPU and decimal quantisation of costs.
- Row versions, update times, drain reasons and other columns that no transaction reads back.
- API, CLI, Kubernetes preflight, Redis, object stores, encryption, metrics, evidence bundles and benchmarks.
- Runtime-profile validation, RBAC, name normalisers, registry and dataset tables, which would only add easy members.
