# NexusTier telemetry: a verified model

A Dafny model of the path that telemetry takes through NexusTier, and proofs about it: gateway sessions, the
collection of a topology snapshot, the single-flight collector, the serial poller, the transaction that ingests a
snapshot into the tables, retention, and the paged read model. Two self-contained pieces of the controller's
authentication package are modelled beside it: the login limiter, and the codecs of session tokens and password hashes.

`dafny verify dfyconfig.toml` checks the whole project.

## How it is organised

* `Topology` holds the snapshot and its validation. `Tables` gives the meaning of every statement that `Ingest` sends,
  table by table, and of whole histories: an `Event` is a delivery of a snapshot or a retention transaction, `Apply` its
  effect, `Exec` a history. `IngestStore` is the code itself: a class whose methods issue the statements of the source in
  its interleaved order over mutable tables, with rollback, proved to add up to `Apply`.
* About histories: `IngestInvariants` (every reachable state, any order), `IngestDuplicates` (idempotence), `Records` (what
  is accepted, answered and kept on record, in terms of the fields of the snapshots),
  `IngestConvergence` (any order), `ActiveFlag` (exactly when the `active` flags do not depend on the order),
  `IngestInOrder` (the tables refine a simple fold), `PeerHistory` (where each column of a peer link comes from),
  `OrderMatters` (plausible claims that are false, with the histories that show it, and the exact conditions for peers).
* The gateway: `Sessions` (heartbeats, pool, lifecycle under every interleaving), `Collection` (the scheduler and what a
  collection contains), `Collector` (the single-flight protocol as a state machine, and what callers may rely on).
* Across programs: `EndToEnd` (gateway, other clients, poller, retention and tables in one transition system),
  `Disappearance` (when a machine disappears; sessions and `EndToEnd` in one run), `Poller` (the worker's status).
* Reading: `ReadModel` (ORDER BY and the batched join), `Paging` (pages and cursor walks).
* `Retention`, `LoginLimiter`, `Text` with `SessionToken` and `Credential`, `Wrappers`.

Many lemmas open with `hide` statements. They only keep definitions out of a proof that does not need them.

## Assumptions

* SHA-256 is a free constructor, so equal fingerprints mean equal payloads. HMAC and PBKDF2 are arbitrary functions;
  PBKDF2 is assumed to return as many bytes as it is asked for. `SessionToken.Unforgeable` states what is asked of HMAC.
* A transaction is one atomic step that can be lost before its commit or lose its acknowledgement after it. Constraint
  violations (NOT NULL, CHECK, primary key) roll it back.
* A UUID is a number below 2^128, compared as PostgreSQL does. Times are whole milliseconds. Validation bounds all of
  them, so the signed conversion of the source cannot wrap (`Topology.ValidTimesDoNotWrap`).
* The gateway's clock does not run backwards, also not from one gateway to the next, and the random id of a collection is
  new. That everything is observed between the start and the completion of its collection follows, because `Collector`
  stamps every observation with the clock (`Collector.ObservedInTime`).
* A collection reads the pool in the same step in which it starts.
* What EasyTier answers (sessions' heartbeats, RPC results, errors, timeouts, panics) is arbitrary.
* The read model's three queries read one database state; a cursor walk reads a different state for every page.
* The limiter's tokens and seconds are real numbers.

## What turned out false

Each of these is a plausible reading of the code or its comments. The model follows the code.

* "The final `active` flag does not depend on the order of delivery": `OrderMatters.ActiveDependsOnOrder` for a machine.
  `ActiveFlag.ActiveExactly` gives the exact condition on the set of stored snapshots, for every machine that is listed at
  all: no complete snapshot without the machine completed after the one with its greatest listing (or with it, when an
  earlier snapshot made the same observation). `ActiveFlag.InstanceActiveExactly` does so for every instance that is listed
  at all, whichever snapshots and machines observe it in the same millisecond. In order the flags are the fold.
* "A deleted peer stays deleted until something newer lists it": `OrderMatters.DeletedPeerComesBack`; no tombstone is kept.
  `OrderMatters.AbsentPeerAppearsExactly`: an absent peer appears exactly when an accepted snapshot lists it and
  no later entry of that snapshot for the same instance withdraws it with a later observation.
* "A snapshot never lowers the key of a peer that survives it": `OrderMatters.RepeatedListingLowersPeerKey`. It holds for all
  peers and tables exactly if the snapshot's listings of one instance do not go backwards in time
  (`OrderMatters.PeerKeysNeverDecreaseExactly`), in particular if it lists each instance once.
* "The retention counters count what has gone": `Retention.LostBatchIsNotCounted`. A batch whose acknowledgement is lost is
  not counted; `Retention.BalancedExactly` says for which schedules of faults, batch sizes and numbers of rows that
  happens, and by how much the counters then fall short.
* "A waiting request gets a collection that completed after it arrived": `Collector.JoinerMayGetOlderSnapshot`.
  `Collector.OlderExactly` says exactly when it does not: when a snapshot that was complete before the request arrived was
  in hand as the request was decided.
* "A client denied once is allowed after `RetryAfter`": fails when the client has been swept and the table is full of
  others (`LoginLimiter.RetryCanFail`); `AllowedAfterRetry` gives the exact condition.

## Model

| member | source | states |
|---|---|---|
| Topology.Validate | controller/internal/gatewayclient/types.go:92-141 | reports no failure exactly for valid snapshots: header, ids, observation times and timestamp range of every machine and instance |
| Topology.ValidateReportsTheFirst | controller/internal/gatewayclient/types.go:92-133 | an invalid snapshot is reported by its first failure in the order of the source: of the header, or else of the first bad machine its nil id, late observation, session time or first bad instance |
| Topology.HeaderError | controller/internal/gatewayclient/types.go:92-110 | the header checks pass exactly for a good header; which of them is reported is `Topology.ValidateReportsTheFirst` |
| Topology.MachineError | controller/internal/gatewayclient/types.go:111-132 | the per-machine checks pass exactly for a good machine |
| Topology.InstancesError | controller/internal/gatewayclient/types.go:124-131 | the per-instance loop passes exactly when every instance is good |
| Topology.ValidTimesDoNotWrap | controller/internal/ingest/store.go:481-483 | in a valid snapshot the signed millisecond conversion changes no value |
| Topology.FindOperationError | controller/internal/ingest/store.go:472-479 | found exactly when some error names the operation |
| IngestStore.Store.Ingest | controller/internal/ingest/store.go:24-123 | for every snapshot and every fault: the answer, and all seven tables afterwards equal one atomic step, or are untouched; an insertion is reported exactly when the id is new in the tables afterwards and nothing failed |
| IngestStore.Store.IngestRows | controller/internal/ingest/store.go:88-117 | the interleaved statements succeed exactly when no constraint is violated, and then add up to the commit of the snapshot |
| IngestStore.Store.IngestMachine | controller/internal/ingest/store.go:92-111 | one turn of the machine loop: machine row, errors, instances, and retirement unless its instance listing failed |
| IngestStore.Store.IngestInstance | controller/internal/ingest/store.go:178-255 | one instance: row, node, peers, stale peers and metrics, or failure exactly on a constraint violation |
| IngestStore.Store.IngestPeers | controller/internal/ingest/store.go:210-232 | peers are upserted and, unless `list_routes` failed, the stale ones deleted |
| IngestStore.Store.UpsertMachine | controller/internal/ingest/store.go:125-176 | the guarded upsert of a machine row |
| IngestStore.Store.UpsertNode | controller/internal/ingest/store.go:257-293 | the guarded upsert of a node row, refused when a list column would be NULL |
| IngestStore.Store.UpsertPeer | controller/internal/ingest/store.go:295-344 | insert or guarded merge that keeps the last known columns when `list_peers` failed |
| IngestStore.Store.InsertMetrics | controller/internal/ingest/store.go:233-253 | samples are inserted, refused exactly on a repeated key |
| IngestStore.Store.InsertErrors | controller/internal/ingest/store.go:424-459 | rows numbered on from the running index, which advances by their number |
| IngestStore.Store.MarkMissingInstances | controller/internal/ingest/store.go:346-376 | deactivates exactly the machine's active, unlisted, older-stamped instances |
| IngestStore.Store.MarkMissingMachines | controller/internal/ingest/store.go:378-422 | deactivates exactly the active, unlisted, older-stamped machines, and the instances of unlisted machines |
| IngestStore.CountErrors | controller/internal/ingest/store.go:461-470 | counts exactly the error rows that will be inserted |
| Records.InsertedExactly | controller/internal/ingest/store.go:24-123 | an insertion is reported exactly for a snapshot whose fields meet every check and every constraint of the tables, under a new id, and when nothing fails |
| Records.AnswersExactly | controller/internal/ingest/store.go:24-123 | the answer after any history for every snapshot and fault: which error, or whether inserted or duplicate, from what was first accepted under its id |
| Records.DistinctMetrics | controller/internal/database/migrations/001_telemetry.sql:87-96 | the sample keys are distinct exactly if no instance has two metrics of one name with equal labels, in one entry or in two |
| Records.RecordsAreTheSnapshots | controller/internal/ingest/store.go:44-64 | after any history: one run for each accepted snapshot with its times, counts and status; all of its errors, each at its index with its scope and ids; of its metrics those that no retention deleted, with value and time; and nothing else |
| Records.RowsAreStamped | controller/internal/ingest/store.go:125-422 | after any history every current row names an accepted collection and carries its completion |
| IngestInvariants.ReachableIsConsistent | controller/internal/ingest/store.go:125-422 | after any history: references resolve, observed is at most completed, inactive rows are exactly those that disappeared, at the completion that stamped them and after their last observation, node and peer times stay below their instance's, error rows are numbered without gaps |
| IngestInvariants.KeysNeverDecrease | controller/internal/ingest/store.go:125-422 | between any two moments no machine, instance or node key decreases and no such row vanishes |
| IngestInvariants.PeersOfInstancesMove | controller/internal/ingest/store.go:210-232 | a snapshot whose listings of one instance do not go backwards in time lowers no surviving peer key |
| IngestInvariants.PeersElsewhere | controller/internal/ingest/store.go:210-232 | peers of instances that a snapshot does not list are untouched |
| IngestInvariants.CommitKeeps | controller/internal/ingest/store.go:88-117 | every accepted snapshot preserves the invariant |
| IngestDuplicates.ReingestDecision | controller/internal/ingest/store.go:65-86 | a known id is a duplicate exactly when the payload equals the one first accepted, otherwise an error, and nothing changes, whatever was pruned |
| IngestDuplicates.HistoryIdentifies | controller/internal/retention/cleaner.go:83-101 | under every interleaving with prunes each run row still identifies its snapshot, by fingerprint or by payload |
| IngestDuplicates.FirstAcceptedIsFinal | controller/internal/ingest/store.go:44-86 | what was first accepted under an id is never replaced |
| IngestDuplicates.EffectsAtMostOnce | controller/internal/ingest/store.go:44-86 | of two deliveries under one id the later has no effect if the earlier was accepted |
| IngestDuplicates.RedeliveryHasNoEffect | controller/internal/ingest/store.go:44-86 | delivering an earlier snapshot again changes nothing, accepted or rejected the first time |
| IngestDuplicates.RetryAfterLostAck | controller/internal/ingest/store.go:119-122 | a retry after a lost acknowledgement reports a duplicate and leaves the tables of one undisturbed call |
| IngestConvergence.HistoryLatest | controller/internal/ingest/store.go:132-157 | after any history each row shows the latest observation among the stored snapshots |
| IngestConvergence.MachinesConverge | controller/internal/ingest/store.go:132-157 | any order, repeats and deactivations: same machines, same latest observation, and the same description when observation times differ |
| IngestConvergence.InstancesConverge | controller/internal/ingest/store.go:179-194 | likewise for instances and their owner |
| IngestConvergence.NodesConverge | controller/internal/ingest/store.go:259-293 | whole node rows agree when their keys differ |
| ActiveFlag.ActiveExactly | controller/internal/ingest/store.go:125-176 | a machine is active in every order of the stored snapshots, and its flag is the same in all of them, exactly when no complete snapshot without it challenges the one with its greatest listing |
| ActiveFlag.ActiveExactlyForLatest | controller/internal/ingest/store.go:125-176 | when one snapshot alone has the latest observation: exactly when no complete snapshot without the machine completed after it |
| ActiveFlag.GreatestExists | controller/internal/ingest/store.go:155-157 | every machine that some stored snapshot lists has a greatest listing |
| ActiveFlag.InstanceActiveExactly | controller/internal/ingest/store.go:346-422 | an instance is active in every order of the stored snapshots, and its flag is the same in all of them, exactly when no snapshot challenges the one with its greatest listing: none that completed with that one or later retires the instance from the machine to which an earlier completed snapshot with the same observation gives it, before observing it itself |
| ActiveFlag.InstanceActiveExactlyForLatest | controller/internal/ingest/store.go:346-422 | when one snapshot alone has the latest observation: exactly when no snapshot that completed later retires the instance from its owner |
| ActiveFlag.GreatestListingExists | controller/internal/ingest/store.go:179-203 | every instance that some stored snapshot lists has a greatest listing |
| ActiveFlag.SnapshotActs | controller/internal/ingest/store.go:92-117 | the row of a known instance after a snapshot that observes it no later: if that completed later, gone when it says so, by enumeration or by omission of its machine, before observing the instance at the same moment; else with its first owner when it does observe it; else unchanged |
| IngestInOrder.InOrderRefinesFold | controller/internal/ingest/store.go:92-117 | after every in-order history, from whatever tables it continues, the visible machines and instances are the fold of the snapshots |
| IngestInOrder.LatestClaimIsLatest | controller/internal/ingest/store.go:179-194 | the fold gives an instance to a machine that lists it, and no listing of it was observed later |
| IngestInOrder.InstanceAfter | controller/internal/ingest/store.go:346-422 | one instance row after an in-order snapshot: visible exactly when claimed or kept, with its owner and times |
| IngestInOrder.FoldHasNoOrphans | controller/internal/ingest/store.go:378-422 | the fold keeps that every instance belongs to a visible machine |
| IngestInOrder.ActiveInstancesHaveActiveMachines | controller/internal/ingest/store.go:346-422 | hence in the tables, after every in-order history from tables where this holds |
| IngestInOrder.HistoryHorizon | controller/internal/ingest/store.go:92-117 | all keys on record lie below the start of whatever is delivered next in order |
| PeerHistory.PeerRowsAreLastKnownGood | controller/internal/ingest/store.go:295-344 | for reports with increasing keys a peer row exists exactly when its last listing was not dropped since, and every column comes from its origin: route from the latest listing, details from the latest successful `list_peers` or the creating one, latency likewise |
| PeerHistory.OriginIsUnique | controller/internal/ingest/store.go:303-321 | the origins are determined by the reports |
| PeerHistory.InOrderIsIncreasing | controller/internal/ingest/store.go:210-232 | in-order histories that list each instance once per snapshot have increasing keys |
| PeerHistory.InOrderPeersAreLastKnownGood | controller/internal/ingest/store.go:210-232 | last known good peer data over every such history |
| PeerHistory.FailedRoutesDeleteNothing | controller/internal/ingest/store.go:218-232 | an instance without peers whose `list_routes` failed changes no peer |
| OrderMatters.ActiveDependsOnOrder | controller/internal/ingest/store.go:155 | three snapshots whose order decides whether a machine is active |
| OrderMatters.AbsentPeerIsInserted | controller/internal/ingest/store.go:295-321 | an absent peer is there after an instance exactly if the instance lists it, however old the listing |
| OrderMatters.AbsentPeerAppearsExactly | controller/internal/ingest/store.go:210-232 | in one step of a history an absent peer appears exactly by an accepted snapshot with a listing of it that no later entry of that snapshot for the same instance withdraws with a later observation |
| OrderMatters.DeletedPeerComesBack | controller/internal/ingest/store.go:218-232 | a history of three accepted snapshots in which a deleted peer comes back by an older listing |
| OrderMatters.PeerKeysNeverDecreaseExactly | controller/internal/ingest/store.go:210-232 | for instances at given times, no choice of peers and table lowers the key of a surviving peer exactly if listings of one instance do not go backwards in time |
| OrderMatters.RepeatedListingLowersPeerKey | controller/internal/ingest/store.go:218-232 | a history in which an accepted snapshot with two listings of one instance takes a peer's key back |
| Collection.CollectTopology | crates/nexustier-gateway/src/telemetry.rs:201-263 | whatever finishes first and whenever the deadline strikes: the loop ends, at most the allowed number of tasks run, sessions wait only when all are in use, every session is collected, failed or counted as remaining, and the result is sorted |
| Collection.SchedulerAccounts | crates/nexustier-gateway/src/telemetry.rs:219-250 | from where every session ended up: machines, errors and the reported remainder account for all of them; without error each session has its machine |
| Collection.RpcValue | crates/nexustier-gateway/src/telemetry.rs:510-526 | an answer yields its value, a failure exactly one error: code `rpc_error` or, for a timeout, `rpc_timeout` |
| Collection.OnlyOwnErrors | crates/nexustier-gateway/src/telemetry.rs:385-397 | the errors of an instance name `list_peers` or `list_routes` exactly when that call failed |
| Collection.JoinPeersAndRoutes | crates/nexustier-gateway/src/telemetry.rs:528-564 | one view per route, joined with the last peer entry of its id if no earlier route took it, sorted by peer |
| Collection.NextView | crates/nexustier-gateway/src/telemetry.rs:529-561 | the consumed map holds exactly the peers that no earlier route took |
| Collection.FirstRouteGetsLastPeer | crates/nexustier-gateway/src/telemetry.rs:529-540 | of the routes with one id exactly the first is joined, with the last peer entry of that id |
| Collection.SortIsStable | crates/nexustier-gateway/src/telemetry.rs:562-563 | sorting keeps the order of elements with equal keys |
| Collection.CollectInstance | crates/nexustier-gateway/src/telemetry.rs:330-407 | each failed call leaves its part empty and its own error; a failed `list_routes` leaves no peers |
| Collection.CollectMachine | crates/nexustier-gateway/src/telemetry.rs:265-328 | an unavailable session is reported under the nil id, a failed listing has its error and no instances, otherwise all instances, sorted |
| Collector.CollectorState.EnterTopology | crates/nexustier-gateway/src/telemetry.rs:164-190 | the critical section on the mutable fields is the deciding step of the protocol: same fields, and the request goes where that step sends it |
| Collector.CollectorState.CommitFlight | crates/nexustier-gateway/src/telemetry.rs:180-183 | the critical section of the task is the committing step of the protocol |
| Collector.ObservedInTime | crates/nexustier-gateway/src/telemetry.rs:201-263 | in every run everything in a finished collection was observed between its start and its completion |
| Collector.TakeKeeps | crates/nexustier-gateway/src/telemetry.rs:163-199 | every step of every task and request preserves the protocol's invariant |
| Collector.RunKeeps | crates/nexustier-gateway/src/telemetry.rs:163-199 | the invariant holds after every interleaving, including abandoned requests |
| Collector.OneCollectionAtATime | crates/nexustier-gateway/src/telemetry.rs:172-184 | a flight is active exactly when `running` names it, so at most one is |
| Collector.NoSenderDropped | crates/nexustier-gateway/src/telemetry.rs:191-198 | no waiter finds its sender dropped: the `expect` cannot fail |
| Collector.WaiterGetsItsFlight | crates/nexustier-gateway/src/telemetry.rs:191-198 | a waiter keeps to the collection it joined and gets its snapshot or gives up |
| Collector.NoLostWakeup | crates/nexustier-gateway/src/telemetry.rs:191-198 | once its flight has published, a waiter returns by its own next steps |
| Collector.FlightsAreSpaced | crates/nexustier-gateway/src/telemetry.rs:163-184 | a later flight starts more than the time to live after an earlier one completed |
| Collector.NeverOlder | crates/nexustier-gateway/src/telemetry.rs:163-199 | a request that arrives after another returned gets the same collection or one that started more than the time to live later |
| Collector.AnswerAge | crates/nexustier-gateway/src/telemetry.rs:163-199 | an answer completed no earlier than the request was decided, unless a snapshot was in hand then, and then it is that one |
| Collector.DecidesExactly | crates/nexustier-gateway/src/telemetry.rs:163-190 | in every run: while a committed collection is at most the time to live old, a request returns at once with such a one and starts nothing; otherwise it joins the flight that has not committed; without one it starts the next |
| Collector.AnswerIsFresh | crates/nexustier-gateway/src/telemetry.rs:163-199 | in every run an answer is at most the time to live old when its request was decided, unless it comes from a flight that had finished collecting and still waited for the lock; if nothing was fresh such a flight is the one that answers |
| Collector.JoinerMayGetOlderSnapshot | crates/nexustier-gateway/src/telemetry.rs:252 | for every time to live, a run in which a request arrives, waits, and gets a snapshot completed before it arrived |
| Collector.OlderExactly | crates/nexustier-gateway/src/telemetry.rs:163-199 | an answer was complete before its request arrived exactly if a snapshot that old was in hand when the request was decided: cached and fresh, or collected and waiting for the lock |
| EndToEnd.RunKeeps | controller/internal/poller/worker.go:54-119 | in every run what the poller logged are finished flights in flight order, and what it gets next is no older |
| EndToEnd.StepDelivers | controller/internal/poller/worker.go:82-119 | what reaches the database in one step: exactly the answer that the poller hands over, if nothing fails, or a transaction of retention |
| EndToEnd.HandedOverCollectionsAreSpaced | controller/internal/poller/worker.go:54-119 | two distinct collections handed over: the later starts more than the time to live after the earlier completed, completes later, and has another id |
| EndToEnd.RepeatsRemovedInOrder | controller/internal/poller/worker.go:54-119 | the deliveries without repeats form an in-order history |
| EndToEnd.RepeatsHaveNoEffect | controller/internal/ingest/store.go:44-86 | the repeats change no table |
| EndToEnd.TablesAreTheFold | controller/internal/ingest/store.go:92-117 | whatever is on record when a gateway comes up, and whatever other clients, lost requests, failures and retention do, the visible tables are the fold of the distinct delivered snapshots from what was visible before; all that is then on record lies before the next moment |
| EndToEnd.NoOrphansEver | controller/internal/ingest/store.go:346-422 | in every such run, from tables without orphans, every active instance belongs to an active machine |
| EndToEnd.PeersAreLastKnownGood | controller/internal/ingest/store.go:295-344 | after an earlier in-order history and such a run, each listing an instance once per snapshot, peers are last known good over both |
| Disappearance.PooledMachineIsSpokenFor | crates/nexustier-gateway/src/telemetry.rs:201-287 | a machine pooled when a collection starts is listed in its snapshot, or the snapshot has top-level errors |
| Disappearance.NoFalseDisappearance | controller/internal/ingest/store.go:113-117 | so ingesting that snapshot, into any tables, never turns the machine inactive |
| Disappearance.StaysVisible | controller/internal/ingest/store.go:378-422 | over whole histories, from any tables, a machine stays active while every valid snapshot speaks for it |
| Disappearance.DisappearsExactly | controller/internal/ingest/store.go:378-401 | a machine disappears exactly by an accepted, complete, later-completed snapshot that does not list it |
| Disappearance.ReappearsExactly | controller/internal/ingest/store.go:132-157 | a machine comes back exactly by an accepted listing with a larger key |
| Disappearance.RunKeeps | crates/nexustier-gateway/src/telemetry.rs:201-287 | in every run of sessions, collections, poller and tables, each finished collection speaks for every machine that was pooled when it started |
| Disappearance.PooledMachineStaysVisible | controller/internal/ingest/store.go:378-401 | a visible machine stays visible through any run, from any tables, in which its session is pooled at the start of every collection that is delivered |
| Disappearance.StartSeesThePool | crates/nexustier-gateway/src/telemetry.rs:201-250 | a collection starts with the sessions then in the pool, and keeps what their tasks report |
| Disappearance.FinishCompletes | crates/nexustier-gateway/src/telemetry.rs:252-262 | a flight finishes with whatever the scheduler makes of the reports, stamped with its start and the present |
| Poller.Worker.Collect | controller/internal/poller/worker.go:79-119 | the status after one round, for every outcome |
| Poller.Worker.RecordFailure | controller/internal/poller/worker.go:121-127 | the error is kept and the 64-bit failure counter advances |
| Poller.StatusTellsTheLastSuccess | controller/internal/poller/worker.go:79-127 | after any run the status shows the last success and counts the failures since |
| Poller.StatusWithoutSuccess | controller/internal/poller/worker.go:79-127 | without any success it counts all failures and shows none |
| Poller.StatusTellsTheLastAttempt | controller/internal/poller/worker.go:82-129 | after any run the error is absent exactly if the last attempt succeeded, and otherwise that attempt's own; and its start is the last attempt's |
| Sessions.GatewaySession.ReceiveHeartbeat | crates/nexustier-gateway/src/session.rs:63-96 | which heartbeats are refused and why; the state afterwards is that of the lifecycle's heartbeat step |
| Sessions.HeartbeatExactly | crates/nexustier-gateway/src/session.rs:60-97 | in every run a heartbeat that names a machine, over a secure tunnel, with the configured token and the id of the earlier ones becomes the session's heartbeat and time; any other changes nothing |
| Sessions.SessionPool.Insert | crates/nexustier-gateway/src/session_pool.rs:14-20 | the pool afterwards is that of the lifecycle's insertion step, and the returned session is the one that step sets out to stop |
| Sessions.SessionPool.RemoveIfCurrent | crates/nexustier-gateway/src/session_pool.rs:22-26 | removes the entry exactly when it is this session's; the pool afterwards is that of the lifecycle's removal step |
| Sessions.RunIsSafe | crates/nexustier-gateway/src/gateway.rs:84-118 | under every interleaving: entries are keyed by the machine id of a session whose task is not finished, and a registered session without its entry has been stopped or is about to be, by its displacer |
| Sessions.PoolDrains | crates/nexustier-gateway/src/gateway.rs:109-116 | when all tasks have finished the pool is empty |
| Sessions.AcceptedIsPooled | crates/nexustier-gateway/src/gateway.rs:84-118 | a session with a heartbeat enters the pool by its own next steps and stops the one it displaces |
| Sessions.StoppedLeaves | crates/nexustier-gateway/src/gateway.rs:84-118 | a stopped session finishes by its own next steps, and its entry, if it is still its own, is gone |
| Sessions.LeavesOnlyWhenStopped | crates/nexustier-gateway/src/gateway.rs:84-118 | in every run a session starts to leave only once it no longer runs |
| Sessions.EntryStays | crates/nexustier-gateway/src/session_pool.rs:14-26 | an entry is lost only to its own session's removal or to a successor for the same machine |
| Sessions.MachineIdIsImmutable | crates/nexustier-gateway/src/session.rs:82-95 | a session's machine id never changes |
| Sessions.PooledSessionIdentity | crates/nexustier-gateway/src/session.rs:204-214 | a pooled session stands for its machine then and at any later moment |
| ReadModel.ParseOptionalUint64 | controller/internal/readmodel/store.go:400-409 | undoes the text cast of a counter exactly when it fits 64 bits |
| ReadModel.ScanPeer | controller/internal/readmodel/store.go:362-392 | fails exactly when a counter of the row does not fit |
| ReadModel.LoadPeers | controller/internal/readmodel/store.go:341-398 | every instance gets exactly the result of asking for its own peers, in order, or the call fails on an unreadable counter |
| ReadModel.LoadInstances | controller/internal/readmodel/store.go:265-339 | the three-query join through index maps equals the nested result, in order, with nothing under the wrong parent |
| ReadModel.AllAttachedStep | controller/internal/readmodel/store.go:390-392 | appending at the indexed place adds one peer to one instance and nothing elsewhere |
| ReadModel.LocatedStep | controller/internal/readmodel/store.go:326-332 | the location index stays exact as instances are appended |
| ReadModel.Select | controller/internal/readmodel/store.go:148-151 | ORDER BY with LIMIT: the first keys of the ascending sequence |
| ReadModel.FirstOfAscending | controller/internal/readmodel/store.go:148-151 | there is one ascending sequence of a set, and a limited result is its prefix |
| ReadModel.PartIsOwnResult | controller/internal/readmodel/store.go:275-285 | the part of one parent in a batched result is what asking for that parent alone gives |
| Paging.CurrentTopology | controller/internal/readmodel/store.go:120-206 | fetching one extra row yields the page, and a cursor exactly when something is left |
| Paging.ReachablePagesAreReadable | controller/internal/readmodel/store.go:384-389 | after any history every page can be read: no counter in a reachable table is too large to parse |
| Paging.PageHolds | controller/internal/readmodel/store.go:140-202 | a page holds matching machines past the cursor in order; whatever it left out lies past the cursor it returns |
| Paging.PageSize | controller/internal/readmodel/store.go:120-200 | a page holds as many matching machines as asked for, 100 if nothing sensible was asked for, or all there are; it reports that limit; and it has a cursor, its last machine, exactly if more match |
| Paging.PageShowsTheRows | controller/internal/readmodel/store.go:140-206 | every machine on a page matches the filters and shows its row |
| Paging.WalkAscends | controller/internal/readmodel/store.go:120-206 | a walk is strictly increasing, hence without repeats, and lists only machines that matched, whatever is ingested in between |
| Paging.WalkEnds | controller/internal/readmodel/store.go:198-202 | every walk ends |
| Paging.NothingMissed | controller/internal/readmodel/store.go:120-206 | a machine that matches throughout a finished walk is on it |
| Paging.FixedTable | controller/internal/readmodel/store.go:120-206 | on a table that does not change the pages concatenate to the sorted result |
| Paging.WalkLength | controller/internal/readmodel/store.go:120-206 | and no more pages are needed than it takes to hold it |
| Paging.NestedMembers | controller/internal/readmodel/store.go:275-333 | a machine shows exactly its own matching instances |
| Paging.NestedRows | controller/internal/readmodel/store.go:265-339 | the instances under a machine are its own, match the filter, ascend, and each shows its row and its node |
| Paging.NestedPeerRows | controller/internal/readmodel/store.go:341-398 | an instance shows exactly its own peers, ascending, each as its row |
| Paging.WalkShowsTheFold | controller/internal/readmodel/store.go:120-206 | after any in-order history a walk over the active topology shows exactly the machines and instances of the fold |
| Retention.SelectOldestSamples | controller/internal/retention/cleaner.go:67-81 | a batch takes the oldest expired samples, all of them if it is not full |
| Retention.SelectOldestRuns | controller/internal/retention/cleaner.go:83-101 | a batch takes the oldest eligible payloads, all of them if it is not full |
| Retention.PostgreSQLStore.DeleteMetricSamplesBefore | controller/internal/retention/cleaner.go:67-81 | removes exactly such a batch unless the call is aborted, and reports its size unless the call failed |
| Retention.PostgreSQLStore.PruneCollectionPayloadsBefore | controller/internal/retention/cleaner.go:83-101 | prunes exactly such a batch, keeping fingerprints, unless the call is aborted, and reports its size unless the call failed |
| Retention.Cleaner.Cleanup | controller/internal/retention/cleaner.go:123-180 | row by row as `CleanedRows` says; ends for every batch size above zero and every fault; without a failure exactly the expired samples and eligible payloads are gone; payloads go only after all samples; both counters, the failure and the rows lost follow from the schedule of faults, the batch size and the numbers of expired and eligible rows; rows before are rows left, rows counted and the batch lost |
| Retention.Cleaner.Run | controller/internal/retention/cleaner.go:103-115 | over any sequence of cleanups and faults the counters miss exactly the lost batches, at most one of at most the batch size for each cleanup, and none unless an acknowledgement is lost |
| Retention.CountersBalance | controller/internal/retention/cleaner.go:131-148 | the rows that were there are the rows left and the rows that went |
| Retention.CleanedRows | controller/internal/retention/cleaner.go:67-101 | row by row: samples from the cutoff on and runs completed from the cutoff on, or without fingerprint, stay as they are; without a failure all older samples are gone and all older fingerprinted payloads are null |
| Retention.BalancedExactly | controller/internal/retention/cleaner.go:150-173 | for every schedule, batch size and numbers of rows: the counters fall short exactly if the first call that fails loses its acknowledgement while the calls before it leave rows for it, and then by that batch |
| Retention.LostBatchIsNotCounted | controller/internal/retention/cleaner.go:151-156 | when the first call deletes and its acknowledgement is lost, none of its batch is counted and no payload is touched |
| Retention.CleanupIsIdempotent | controller/internal/retention/cleaner.go:150-173 | a second cleanup with the same cutoff finds nothing, and unexpired samples stay |
| LoginLimiter.LoginLimiter.Allow | controller/internal/auth/limiter.go:47-71 | the answer and the buckets after sweep, refill and spending |
| LoginLimiter.LoginLimiter.Refund | controller/internal/auth/limiter.go:74-80 | a known client gets a token back, up to the burst |
| LoginLimiter.LoginLimiter.SweepLocked | controller/internal/auth/limiter.go:87-93 | drops exactly the buckets idle for more than thirty minutes |
| LoginLimiter.RunSound | controller/internal/auth/limiter.go:47-71 | the table never exceeds 4096 clients and tokens stay between zero and the burst |
| LoginLimiter.RefinesIdeal | controller/internal/auth/limiter.go:47-93 | every answer equals that of a limiter that never forgets, apart from refusals of unknown clients while the table is full |
| LoginLimiter.RateBound | controller/internal/auth/limiter.go:10-17 | in any window allowed attempts minus refunds are at most the burst plus the refill, across sweeps |
| LoginLimiter.CreditExactly | controller/internal/auth/limiter.go:47-80 | the credit of every client after a step, for ever after: one token less for an allowed attempt, one more up to eight for a refund, otherwise unchanged; one token comes back every thirty seconds; and exactly when an attempt is allowed |
| LoginLimiter.BurstOfEight | controller/internal/auth/limiter.go:10-17 | a new client that keeps trying in one moment is allowed exactly eight times |
| LoginLimiter.CreditAccrues | controller/internal/auth/limiter.go:61-63 | a client without success accrues credit at the refill rate, whatever it tries |
| LoginLimiter.AllowedAfterRetry | controller/internal/auth/limiter.go:82-85 | one refill after a denial an attempt is allowed exactly unless the client is unknown and the table full |
| LoginLimiter.RetryCanFail | controller/internal/auth/limiter.go:54-58 | a reachable history in which that exception happens |
| Text.SplitJoin | controller/internal/auth/session.go:88-91 | splitting undoes joining for parts without the separator |
| Text.CutJoin | controller/internal/auth/session.go:76-79 | cutting at the first separator recovers both sides |
| Text.JoinSplit | controller/internal/auth/session.go:88-91 | joining undoes splitting |
| Text.ParseFormatUint | controller/internal/readmodel/store.go:400-409 | parsing a decimal undoes printing it exactly on 64 bits |
| Text.DigitsAre | controller/internal/readmodel/store.go:400-409 | the printed digits are those of the number, most significant first, without leading zeros |
| Text.ParseFormatInt | controller/internal/auth/session.go:96-99 | likewise for signed numbers |
| Text.ParseSigned | controller/internal/auth/credential.go:65-68 | signs are read, a plus too, within 64 bits |
| Text.DecodeEncode | controller/internal/auth/session.go:84-95 | base64 without padding, both alphabets: decoding undoes encoding (sections 4 and 5 of RFC 4648) |
| Text.SymbolsAre | controller/internal/auth/session.go:62-72 | the two alphabets of RFC 4648 |
| Text.EncodesNumbers | controller/internal/auth/session.go:62-72 | three bytes and their four symbols are the same number; shorter groups are encoded as if zeros followed |
| Text.DecodesExactly | controller/internal/auth/session.go:84-95 | a text decodes exactly if it holds only symbols, carriage returns and newlines and leaves no symbol alone |
| SessionToken.VerifyUndoesIssue | controller/internal/auth/session.go:56-104 | the subject comes back exactly while the current second is below the expiry second |
| SessionToken.TokenLifetime | controller/internal/auth/session.go:96-103 | a token is accepted until a second before the end of its time to live, and never from the end on |
| SessionToken.TokenText | controller/internal/auth/session.go:56-73 | what a token says: subject, expiry second and nonce, and the MAC of that text |
| SessionToken.GrantedText | controller/internal/auth/session.go:88-103 | what is granted has exactly three parts, a subject and a second that has not come yet |
| SessionToken.AcceptedIsSealed | controller/internal/auth/session.go:75-83 | every accepted token is a text with the one signature that goes with it |
| SessionToken.OnlyIssuedAccepted | controller/internal/auth/session.go:56-104 | after any calls of `Issue` and for any presented tokens: if the MAC is unforgeable, every accepted token came from one of the calls, and is accepted for its subject and before its expiry second |
| SessionToken.AcceptanceOnlyEnds | controller/internal/auth/session.go:96-103 | an accepted token was accepted at every earlier moment |
| Credential.ParseUndoesFormat | controller/internal/auth/credential.go:46-78 | parsing recovers iterations, salt and key exactly for usable hashes |
| Credential.HashText | controller/internal/auth/credential.go:46-51 | the text of a hash: scheme, iterations, salt and key |
| Credential.ParsedText | controller/internal/auth/credential.go:53-78 | whatever is parsed has exactly these four parts and is usable |
| Credential.LoginRoundTrip | controller/internal/auth/credential.go:34-110 | a stored hash admits exactly its owner with a password that derives the same key |

## Left out

- HTTP serving, routing, cookies, the login page, configuration, build information, migrations, the command line and the user interface: plumbing around the modelled code.
- EasyTier tunnels, RPC transport and the getters of its peer-route pairs: an unseen library; `Collection` takes its results and the displayed form of a route as arbitrary.
- PostgreSQL internals, pooling, column types and server clocks (`ingested_at`, `updated_at`): tables are maps and transactions atomic. A NUL character in a text column, which PostgreSQL rejects, is not modelled; nor is an integer column overflowing on more than 2^31 machines or errors.
- JSON: a payload is the snapshot itself, so a null and an empty list of machines, instances, peers, metrics or errors are one value, and the gateway's encoding and the controller's decoding are assumed to agree. Lists that reach a NOT NULL column, and labels, keep the distinction.
- Hash collisions, the security of HMAC and PBKDF2, and constant-time comparison.
- Floating-point rounding in the limiter and in latency and loss values; `clientAddress`.
- Trimming and UTF-8 in `NewCredential`; token times outside the range of a 64-bit count of seconds, which Go's clock cannot produce.
- Wrap-around of the 64-bit retention totals; error texts and log lines.
- A transaction that commits after its client has given up and started another call: the commit belongs to the call that issued it.
- What happens inside a gateway that is shut down (`abort_all`), and clocks that run backwards. A new gateway that comes up later is a new run over the tables that the last one left.
- The latest collection summary and its error list in the read model: they would add only easy members.
- The waiting loop for the first heartbeat appears as one step that is enabled once a heartbeat has been accepted, or a step that gives up.
