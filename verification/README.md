# Snowcast fault tolerance, verified

A Dafny model of the part of Snowcast that must survive a crash: the write-ahead log, the synchronous
replication of that log from a leader to a standby, the registry of clients and stations that the log
drives, the handlers that change both, and the lease-based promotion that replays the log.
`dafny verify dfyconfig.toml` checks everything.

## Layout

| file | contents |
|---|---|
| `Entries.dfy` | log records, sequence numbers, what "consecutive" means |
| `ClientKeys.dfy` | the `ip:port` key of a client |
| `WalFormat.dfy`, `VarintCodec.dfy` | record framing, reading back, torn files; one codec that meets the codec law |
| `Wal.dfy`, `FailedSyncs.dfy` | the log: as a value over all histories, as the class `Log` with file bytes, cursor and counter, and on a disk whose writes and syncs fail |
| `RegistrySpec.dfy`, `ReplayMeaning.dfy`, `Registry.dfy` | the registry as a key-to-station map with replay as a fold; what replay means, said without running it; the registry on the heap, with swap-with-last lists and event channels |
| `InboundSpec.dfy`, `Inbound.dfy` | the standby's replication handler, as a value and as a class |
| `SyncSpec.dfy`, `Coordinator.dfy` | one call, the sync of a lagging standby and the single retry over a lossy link, as values and as a class |
| `ControlSpec.dfy`, `Control.dfy` | handler guards, apply and rollback, as values and as the class `Server` over the real objects |
| `ReplicationRuns.dfy`, `ReplicationSafety.dfy` | the protocol as a step system with concurrent requests, lost, duplicated and reordered calls, restarts and one promotion; its invariant and what follows |
| `Liveness.dfy` | what the leader achieves when the standby can be reached |
| `Failover.dfy` | failover equality over one-request-at-a-time runs of that step system |
| `Divergence.dfy` | runs with failed replications, or from a registry the log does not rebuild: when the log still replays and when it rebuilds the registry |
| `Refinement.dfy` | the server over its sequential coordinator as a run of the step system |
| `Promotion.dfy` | a leader's start, `startWithWal` and `promoteToLeader` over the real objects, and a whole failover |
| `Leadership.dfy` | the etcd key, leases, and the nodes' roles |

How the pieces fit: `Accept` is the standby's answer to one message, and the same function drives the class
`InboundHandler`, the lossy link of `SyncSpec` and the `Deliver` step of the step system. `Apply` and `Replay`
are the registry's meaning, and the heap registry, the handlers, promotion and the failover theorems all
speak of them. A remote call has a fate (delivered, request lost, reply lost) in the sequential classes; in the
step system it may be delivered any number of times, at any later moment, or never.

## Main results

- **Failover durability.** Whatever the network does and however many requests overlap, a request the leader
  reported as done is, at its own number, in the log the promoted node reads behind its fence. This needs a
  standby that started as a non-empty prefix. From an empty standby two overlapping requests can lose an
  acknowledged record, and a concrete run shows it. There an acknowledged record survives exactly when it is not older
  than the record whose delivery found the standby empty, so it survives if the standby held anything when the request
  began, or if the request was acknowledged before the next one began.
- **Failover equality.** In one-request-at-a-time runs without a failed replication, leader crashes included, the standby's
  log rebuilds the leader's registry at every moment, up to the single request under way or cut off.
- **Refinement.** Serving any requests over a link with any fates is one of the runs of the step system. Durability and
  equality therefore hold of the objects: `FailOver` lets a `Server` serve and then promotes its standby.
- **Failed replications.** They leave their record in the leader's log. The log still replays exactly when no
  client whose connect or disconnect was logged without acknowledgement had another request logged later, and still
  rebuilds the registry exactly when, besides, every client's last logged request was acknowledged or re-selected the
  station the client was on. A promoted standby serves exactly when no record it holds broke the run in that way, and then
  has the leader's registry except for the clients whose last record there was not acknowledged.
- **Crashes.** With no failed replication, a node that dies during a request comes back with the registry from before
  or from after it, unless a part of the record reached the disk: then the log is refused as truncated and the node does not
  start again. More generally a written log cut at any byte reads as a prefix on a frame boundary and is refused anywhere else.
  A failed sync keeps the record but gives its number away; the numbering survives exactly when nothing is written before a reopening.
- **Second replay.** Promotion with a reachable peer replays the log twice. The second replay succeeds exactly when
  nobody is connected; otherwise it stops, leaves behind every client that was connected when the first surviving
  client was first mentioned, and the node serves with its local log only, its peer untouched. From then on its log
  replays exactly as long as none of the clients brought back in this way has a request logged.
- **Progress.** With a standby that can be reached, every record is acknowledged and the logs stay equal; a sync brings any
  standby that holds a prefix, or nothing, up to date, so a leader starts exactly when its log replays. An empty standby is
  not caught up by a request alone.
- **Meaning.** Each request does to map and log what it asks for and nothing else, and what a log rebuilds is said by the last
  record about each client.
- **Leases.** At most one node is in the leader role with a lease etcd honours, and the key is attached to that lease. A
  standby asks for the key exactly when it has seen it held since it last became a standby, and then takes over once the lease
  expires.

## Where the code and its documentation differ

The model follows the code.

- README.md of the repository says that the leader waits for the standby before committing to its own log; the code
  appends to its own log first (internal/replication/coordinator.go:181), so a failed replication leaves the record there.
- The same document says that there are never two primaries at once. Two nodes can be in the leader role at once
  (`TwoNodesInLeaderRole`); what holds is `LeaseExclusivity`.

## Model

| member | source | states |
|---|---|---|
| `ClientKeys.ClientKeyInjective` | internal/state/state.go:40-42 | equal keys mean equal address and port, for addresses that contain colons too |
| `ClientKeys.KeyReadsBack` | internal/state/state.go:40-42 | a key is the address, a colon, and decimal digits that stand for the port |
| `Entries.ConsecutiveMax` | pkg/wal/wal.go:41-45 | on a log without gaps the recovered counter is the last record's number |
| `Entries.MaxSeqIsHighest` | pkg/wal/wal.go:36-47 | on every log the recovered counter is the highest number: none is above it and some record has it |
| `WalFormat.HeaderRoundTrip` | pkg/wal/wal.go:63-64 | the four length bytes give back every length below 2^32 |
| `WalFormat.FrameLayout` | pkg/wal/wal.go:57-71 | a frame is the encoded record behind its length in four bytes, the most significant first |
| `WalFormat.ParseConcat` | pkg/wal/wal.go:129-153 | after a readable file, reading goes on as at the start of a file |
| `WalFormat.RoundTrip` | pkg/wal/wal.go:124-154 | a written file reads back as exactly the records written, in order |
| `WalFormat.RefusedAs` | pkg/wal/wal.go:139-153 | after any readable file a zero length is refused as such and a payload that does not decode as malformed |
| `WalFormat.CutOnBoundary` | pkg/wal/wal.go:129-146 | cut on a frame boundary, a written file reads as exactly the records before the cut |
| `WalFormat.CutOffBoundary` | pkg/wal/wal.go:129-153 | cut anywhere else it is refused as truncated, never as a zero size or a malformed payload |
| `WalFormat.TornAppend` | pkg/wal/wal.go:63-76 | a process that dies while appending to a readable file leaves one that opens exactly when none or all of the frame was written, and is refused as truncated otherwise |
| `VarintCodec.InstanceIsLawful` | pkg/wal/wal.go:57-61 | a concrete codec meets the law the log relies on |
| `Wal.ReadFileIsParse` | pkg/wal/wal.go:129-153 | the accumulating read loop yields what the format says |
| `Wal.WriteAtReplaces` | pkg/wal/wal.go:65-71 | a write replaces the bytes at the cursor, extends the file beyond its end, and touches no others |
| `Wal.WrittenAppends` | pkg/wal/wal.go:63-76 | a write at the cursor of a healthy log appends one record, keeps the cursor at the end and the counter at the maximum |
| `Wal.RoundTripOverHistory` | pkg/wal/wal.go:21-154 | over every interleaving of appends, replicated appends, reads and reopenings the log reads back what was appended, recovers the same counter, and numbers on above every record |
| `Wal.Log.Open` | pkg/wal/wal.go:21-34 | opening succeeds exactly on readable files and yields a valid log holding their records |
| `Wal.Log.RecoverSeq` | pkg/wal/wal.go:36-47 | the counter becomes the highest number in the file |
| `Wal.Log.ReadAll` | pkg/wal/wal.go:124-154 | returns what the file reads as, the fault if it is bad, and leaves the cursor at the end if it is good |
| `Wal.Log.Append` | pkg/wal/wal.go:50-78 | the record gets the number after the highest one and is appended; if it cannot be encoded nothing changes; a failed write or sync leaves exactly the bytes written and the old counter |
| `Wal.Log.AppendReplicated` | pkg/wal/wal.go:81-108 | a numbered record is appended as it is; number 0 and unencodable records are refused and change nothing; a failed write or sync leaves exactly the bytes written and the old counter |
| `Wal.Log.LastSeq` | pkg/wal/wal.go:111-115 | the highest number in the log |
| `Wal.AttemptReads` | pkg/wal/wal.go:57-76 | what a healthy log reads as after a write with any outcome: a failed sync leaves the record there, a write that failed half-way leaves a file that does not open |
| `Wal.FailedWriteLeaves` | pkg/wal/wal.go:65-76 | a failed write or sync leaves its bytes at the end of the file, the cursor after them and the old counter |
| `FailedSyncs.NumberingSurvivesIff` | pkg/wal/wal.go:50-106 | over every history of writes, failing syncs, reads and reopenings the file reads well, and its numbering has no gap or repeat exactly when no record was written after a failed sync without a reopening in between |
| `FailedSyncs.FailedSyncRepeatsNumber` | pkg/wal/wal.go:73-106 | the shortest history that repeats a number: after a failed sync the record is in the log all the same, and the next record gets its number a second time, unless the log is reopened first |
| `InboundSpec.ConsecutiveUnderAnyInput` | internal/replication/server.go:78-106 | under any messages, restarts and fences the log only grows, keeps consecutive numbers, agrees with the handler's number, and a promoted node's next record continues it |
| `InboundSpec.FencedStaysAsItIs` | internal/replication/server.go:69-89 | behind the fence no message changes the handler or its log until it is restarted |
| `InboundSpec.AnswersIff` | internal/replication/server.go:78-106 | on a numbered log: exactly which records are acknowledged, which of them are stored, and that nothing is acknowledged behind the fence |
| `InboundSpec.OpenedTakesNext` | internal/replication/server.go:40-40 | a handler opened over any log takes the record after its highest number and goes on accepting |
| `InboundSpec.RestartedTakesNext` | internal/replication/server.go:40-40 | so does a restarted one, whatever reached it before |
| `InboundSpec.StopFences` | internal/replication/server.go:69-89 | once fenced, whatever reached it before, a handler keeps its log and acknowledges nothing until it is restarted |
| `Inbound.InboundHandler.constructor` | internal/replication/server.go:40 | a handler starts accepting, with the log's own highest number as its last one |
| `Inbound.InboundHandler.Replicate` | internal/replication/server.go:78-106 | answers and changes the log as `Accept` says; a message without an entry is refused |
| `Inbound.InboundHandler.Ping` | internal/replication/server.go:108-112 | reports the highest number in the log |
| `Inbound.InboundHandler.StopAccepting` | internal/replication/server.go:69-71 | the fence: `accepting` is lowered and everything else is left as it is |
| `SyncSpec.SyncResult` | internal/replication/coordinator.go:153-176 | a successful sync appends exactly the records the standby was missing; the logs end equal exactly when the old one was a prefix |
| `SyncSpec.SyncCatchesUp` | internal/replication/coordinator.go:153-176 | over a link that delivers, a sync succeeds and brings any standby that holds a prefix, or nothing, up to date |
| `SyncSpec.SyncCalls` | internal/replication/coordinator.go:153-176 | a successful sync asks once for the standby's number and sends each missing record once, and no other |
| `SyncSpec.RetrySuccessMeansCaughtUp` | internal/replication/coordinator.go:207-217 | over any link a prefix stays a prefix, and success means the standby has the whole log |
| `SyncSpec.RetryCatchesUp` | internal/replication/coordinator.go:207-234 | over a link that delivers, a standby any number of records behind is caught up with at most one sync in which nothing is rejected |
| `SyncSpec.RetryOnEmpty` | internal/replication/server.go:93-105 | an empty standby acknowledges a request by taking its record as the first one, so it is caught up exactly when that is the leader's only record |
| `SyncSpec.RetryTries` | internal/replication/coordinator.go:207-217 | an acknowledged first try is the only call; after a sync the record is sent again and fails without an answer |
| `SyncSpec.RetryUnreachable` | internal/replication/coordinator.go:207-217 | a standby that no call reaches is left as it is, and the request fails |
| `SyncSpec.FailedRequestMaySurvive` | internal/replication/coordinator.go:193-196 | a request reported as failed can be in the standby's log |
| `Coordinator.Coordinator.Replicate` | internal/replication/coordinator.go:219-234 | one call over the link; success means the standby has reached the record |
| `Coordinator.Coordinator.BackupLastWalSeq` | internal/replication/coordinator.go:144-150 | the standby's number, or an error when the call is lost |
| `Coordinator.Coordinator.SyncBackupWal` | internal/replication/coordinator.go:153-176 | the loop does what `Sync` says, leaves the leader's log alone, raises the mark to the highest number sent, and never marks more than the standby has |
| `Coordinator.Coordinator.ReplicateWithRetry` | internal/replication/coordinator.go:207-217 | does what `Retry` says, and syncs exactly when the first try was not acknowledged |
| `Coordinator.Coordinator.MarkAcknowledged` | internal/replication/coordinator.go:198-202 | the mark rises to the acknowledged number and never passes what the standby has |
| `RegistrySpec.ReplayConcat` | internal/replication/coordinator.go:134-138 | replaying two logs in a row is replaying their concatenation |
| `ReplayMeaning.ReplayMeans` | internal/state/state.go:153-168 | every log: it replays exactly when each record fits those before it, and then a client is registered exactly when its last record is not a disconnect, on the station that record gives |
| `ReplayMeaning.MisfitEnds` | internal/replication/coordinator.go:134-138 | replay ends at the first record that does not fit, with the registry of those before it: a panic for a station that does not exist, an error otherwise |
| `RegistrySpec.SecondReplay` | internal/replication/coordinator.go:83-86 | a second replay succeeds exactly when nobody is left registered |
| `RegistrySpec.SecondReplayOutcome` | internal/replication/coordinator.go:128-138 | otherwise it stops with an error and never panics |
| `RegistrySpec.SecondReplayResidue` | internal/node/manager.go:232-246 | what the stopped replay leaves: the rebuilt map plus every client connected before the first survivor is mentioned |
| `RegistrySpec.SecondReplayHarmless` | internal/node/manager.go:241-246 | it leaves memory as it was exactly when nobody was connected at that point |
| `RegistrySpec.SecondReplayRevivesClient` | internal/node/manager.go:241-246 | a log whose second replay brings back a client that had disconnected |
| `Registry.SwapOutRemoves` | internal/state/state.go:176-181 | swap-with-last removes exactly one element and keeps the others without duplicates |
| `Registry.Registry.RemoveFromCurrentStation` | internal/state/state.go:170-184 | the client's station list loses it by swap-with-last, if it is there; no other list changes |
| `Registry.Registry.InitStations` | internal/state/state.go:32-37 | empty lists; valid only if no client is registered |
| `Registry.Registry.ApplyHandshake` | internal/state/state.go:45-66 | registers the key on no station unless it is taken; the objects keep representing the map |
| `Registry.Registry.ApplySetStation` | internal/state/state.go:77-97 | moves a known client's key to the station, in map and lists alike |
| `Registry.Registry.ApplyDisconnect` | internal/state/state.go:123-136 | removes the key from map and lists and closes the channel, which is still open |
| `Registry.Registry.RollbackHandshake` | internal/state/state.go:69-74 | forgets the key and does not look at the lists, so the registry stays in order exactly when the client was on no station |
| `Registry.Registry.RollbackSetStation` | internal/state/state.go:100-120 | puts the key back on its previous station; the registry stays in order exactly when that station exists or the key is gone |
| `Registry.Registry.RollbackDisconnect` | internal/state/state.go:139-150 | registers the copy and appends it to its station's list; the registry stays in order if the key was free and the copy is open and on an existing station |
| `Registry.Registry.ApplyWalEntry` | internal/state/state.go:153-168 | one entry has the effect and outcome of `Apply`, including the unchecked station index |
| `Registry.Registry.ReplayLog` | internal/replication/local.go:35-46 | the replay loop has the effect and outcome of `Replay` |
| `Registry.ListenersMatchMap` | internal/state/state.go:93-95 | a station's list holds each key tuned to it exactly once and no other |
| `Registry.ListenersAreOpen` | internal/runtime/runtime.go:125-132 | no client on a station list has a closed channel |
| `ControlSpec.GuardsMakeApplySucceed` | internal/control/grpc.go:28-80 | what the guards let through always applies |
| `ControlSpec.RequestMeans` | internal/control/grpc.go:24-174 | every request in its own terms: a connect of a client not connected, a move of a connected one to an existing station, a disconnect of a connected one are recorded under the next number and change the map accordingly; everything else changes nothing; without an acknowledgement only the record remains |
| `ControlSpec.PendingIsWritten` | pkg/wal/wal.go:57-71 | the bytes a request leaves on disk are those that appending its record adds to the file |
| `ControlSpec.LogAlwaysReplayable` | internal/control/grpc.go:24-174 | in every sequential run without a failed replication the log rebuilds exactly the registry in memory |
| `ControlSpec.CrashRecovers` | pkg/wal/wal.go:63-76 | a crash at any byte of a request, after any run without a failed replication: the registry from before with nothing of the record on disk, from after with all of it, and a node that does not start again with a part of it |
| `ControlSpec.FailedReplicationDiverges` | internal/replication/coordinator.go:187-196 | a failed replication restores memory and leaves one more record; the log still rebuilds memory exactly when the request was turned away or changed nothing |
| `ControlSpec.RetryAfterFailureBreaksLog` | internal/control/grpc.go:30-51 | the shortest run that breaks a log: a client told that its connect failed connects again |
| `ControlSpec.RevivedClientBreaksLog` | internal/node/manager.go:241-262 | one request of a client that only a second replay brought back: it cannot connect, and its other requests make the log unreplayable |
| `Divergence.RunTracks` | internal/replication/coordinator.go:187-196 | over every run from a log that replays, failures included: until it breaks, replay and memory have the same clients except the owed ones (registered in only one of the two from the start, or with an unacknowledged connect or disconnect in the log), and say the same about every client except the lagging ones (last logged request unsettled, or different from the start and silent since); once broken, replay stops |
| `Divergence.LogReplaysIff` | internal/replication/coordinator.go:134-138 | over every run from a log that replays, the log replays exactly when no owed client had a request logged; replay never panics, and failed station changes never break it |
| `Divergence.ReplayableIff` | internal/replication/coordinator.go:187-196 | over every such run the log rebuilds memory exactly when it replays, every client's last logged request was acknowledged or re-selected the client's station, and log and memory agreed from the start about every other client |
| `Divergence.PrefixReplaysIff` | internal/node/manager.go:228-237 | the first records of the leader's log, as a standby holds them, replay exactly when none of them broke the run, and otherwise stop with an error |
| `Divergence.RevivedClientsBreakLogIff` | internal/node/manager.go:241-262 | the life of a promoted node whose second replay stopped: without failed replications its log goes on replaying exactly as long as no client that the second replay brought back has a request logged |
| `Control.Server.RollbackChange` | internal/control/grpc.go:43-167 | an undone change leaves the registry representing the map of before (and so the same listeners, by `ListenersMatchMap`), for each of the three operations |
| `Control.Server.LocalReplicateAndWait` | internal/replication/local.go:49-59 | log, then registry, for every record that can be encoded; otherwise nothing |
| `Control.Server.RemoteReplicateAndWait` | internal/replication/coordinator.go:179-204 | log, registry, standby, mark; log, registry, standby and verdict are those of `Relay` for the codecs and the link; without an acknowledgement the map is the one of before and the log is one record longer; with a standby that can be reached the record is acknowledged and the logs end equal |
| `Control.Server.HandleHello` | internal/control/grpc.go:24-58 | a client not connected is recorded and connected on no station, with a peer or without; a connected one is turned away; the answer is yes exactly if it was recorded and acknowledged |
| `Control.Server.HandleTune` | internal/control/grpc.go:60-107 | a connected client is recorded with its previous station and moved to the one it names if there is one, and turned away otherwise, up to the answer, which is yes exactly if that was recorded and acknowledged |
| `Control.Server.HandleBye` | internal/control/grpc.go:136-174 | a connected client is recorded and removed, any other is turned away; the answer is yes exactly if it was recorded and acknowledged |
| `Control.Server.Serve` | internal/control/grpc.go:24-174 | any run of requests on the heap objects has the effect of the value-level run on log, registry, standby and answers, with a record missing only if it could not be encoded; the registry keeps representing its map, and no channel is closed twice; with a standby that can be reached no replication fails and equal logs end equal |
| `Liveness.RelayIsAcknowledged` | internal/replication/coordinator.go:179-204 | with a standby that can be reached and holds a prefix of the log, an operation past its guards is logged, applied and acknowledged, and the standby ends with the leader's whole log |
| `Liveness.ServingIsAcknowledged` | internal/replication/coordinator.go:179-204 | over such a link no replication of any run fails, and the logs end equal if they were equal or any record was written |
| `ReplicationRuns.AcceptKeepsSegment` | internal/replication/server.go:90-105 | a record of the leader's log extends the stretch the standby holds, and an ok answer means the standby has reached it |
| `ReplicationRuns.RunKeepsInv` | internal/replication/coordinator.go:153-234 | the protocol invariant holds after every step of every run, and nothing written is ever changed |
| `ReplicationSafety.AnythingMayHappen` | internal/replication/coordinator.go:219-234 | in every state a request may begin, every call ever sent may be delivered again and is answered by the standby as it is now, and every wait may time out |
| `ReplicationSafety.RestartedStandbyTakesNext` | internal/replication/server.go:40-40 | a restarted standby keeps its log and takes the leader's next record again |
| `ReplicationSafety.PromotedContinues` | internal/node/manager.go:241-262 | a promoted node's records continue the log it read |
| `ReplicationSafety.PrefixInvariant` | internal/replication/server.go:84-105 | a standby that starts as a non-empty prefix stays a prefix |
| `ReplicationSafety.FailoverDurability` | internal/node/manager.go:222-237 | every acknowledged request is at its number in the log the promoted node read, and stays there |
| `ReplicationSafety.EmptyStart` | internal/replication/server.go:93-104 | from an empty standby: always a stretch of the leader's log, a prefix exactly if record 1 came first |
| `ReplicationSafety.FirstAccepted` | internal/replication/server.go:93-104 | the first record is the one of the delivery that found the log empty, and never changes |
| `ReplicationSafety.SurvivesIff` | internal/replication/server.go:90-104 | from an empty standby, with requests overlapping: an acknowledged record is in the promoted log exactly when it is not older than the record whose delivery found the standby's log empty |
| `ReplicationSafety.BegunOnNonEmptySurvives` | internal/replication/coordinator.go:179-204 | a request that begins when the standby holds anything is in the promoted log if it is acknowledged, whatever overlaps with it |
| `ReplicationSafety.AcknowledgedAsNewestSurvives` | internal/replication/coordinator.go:179-204 | so is a request that is acknowledged before the next one begins, from an empty standby too |
| `ReplicationSafety.FailoverDurabilityFromEmpty` | internal/replication/coordinator.go:179-204 | with one request at a time durability holds from an empty standby |
| `ReplicationSafety.OverlappingRequestsLoseAcknowledged` | internal/replication/server.go:90-93 | a run in which two overlapping requests lose an acknowledged one |
| `Failover.FailoverEquality` | internal/node/manager.go:228-237 | at every moment of a one-at-a-time run without failed replications, leader crashes included, the standby's log replays; it rebuilds the leader's registry when no request is under way and the standby was synced since the last crash, and otherwise both are the registry before or after the leader's last record |
| `Refinement.RetryIsARun` | internal/replication/coordinator.go:207-217 | the sequential retry, under any fates, is a run of the step system with the same standby and the same verdict |
| `Refinement.StartIsARun` | internal/node/manager.go:99-118 | a leader that crashes at any moment and starts again is a run: what was under way has not succeeded, and the start ends well exactly when the sync does |
| `Refinement.ServingIsARun` | internal/replication/coordinator.go:179-204 | serving any requests over any link is a legal one-at-a-time run of the step system ending with the server's log, registry, standby and answers, and one that failover equality covers if nothing failed |
| `Refinement.ServedIsDurable` | internal/replication/coordinator.go:179-204 | every record whose client was told that it succeeded is, at its number, in the standby's log |
| `Refinement.ServedStaysPrefix` | internal/replication/server.go:84-105 | a standby that held a non-empty prefix of the leader's log still does after any requests |
| `Refinement.ServedIsRebuilt` | internal/node/manager.go:228-237 | if no replication failed since the logs were equal, the standby's log rebuilds the leader's registry |
| `Refinement.RebuiltAfterFailures` | internal/replication/coordinator.go:187-196 | failed replications included: the standby's log holds the records up to some request, and unless they broke the run it rebuilds the leader's registry exactly except for the clients lagging at that point |
| `Refinement.AfterServing` | internal/node/manager.go:222-237 | what a promotion finds after any requests: the acknowledged records; a log that replays exactly when no record in it broke the leader's run; from equal logs the leader's registry except for lagging clients, and without failures all of it |
| `Promotion.StartWithWal` | internal/replication/coordinator.go:71-94 | replays the log into the live registry, whatever it holds, and then syncs the peer: outcome, registry and peer for a replay that completes, stops or panics |
| `Promotion.RunAsLeader` | internal/node/manager.go:99-118 | a node started as leader gets to serve exactly when its log replays and the sync succeeds; its registry is then what its log rebuilds, and a standby that held a prefix of the log, or nothing, holds all of it; with a standby that can be reached it gets to serve exactly when its log replays |
| `Promotion.PromoteToLeader` | internal/node/manager.go:201-262 | fence, replay, outcome, final registry and final peer of a promotion; the peer is replicated to exactly when nobody was registered and the sync succeeded, which it does if the peer can be reached; a refused promotion leaves what the replay had built |
| `Promotion.FailOver` | internal/node/manager.go:201-262 | leader serves, then the standby is promoted, on the heap objects: acknowledged records are in the log it reads, it serves exactly when no record there broke the leader's run, and its registry is the leader's, up to lagging clients if replications failed; none fails as long as the standby can be reached |
| `Leadership.LeaseExclusivity` | internal/leadership/etcd.go:43-69 | at most one node is leader with a live lease, and the key is attached to it |
| `Leadership.LoserRemovesNoOtherKey` | internal/leadership/etcd.go:53-61 | giving up an attempt removes no other node's key, and a beaten node removes none |
| `Leadership.NoLeaderWithoutStartup` | internal/node/manager.go:151-178 | as long as no node is started as leader, standbys never ask for the key and none takes the role |
| `Leadership.StandbyAsksIff` | internal/node/manager.go:151-182 | in every run a node leads exactly when it was promoted and neither demoted nor restarted since, and a standby may ask exactly when it has polled a held key since it last became one |
| `Leadership.StandbyTakesOver` | internal/node/manager.go:151-216 | from any state in which the key is held, a standby that polls, outlives the lease and asks becomes the rightful leader |
| `Leadership.LeavingTheKey` | internal/node/manager.go:191-195 | a failed promotion frees the key and keeps the role; demotion and death give up the role and leave the key to expire |
| `Leadership.FailedAttemptLeavesStore` | internal/leadership/etcd.go:44-61 | an attempt without a session whose revocation arrives leaves key and leases as they were; an unanswered grant leaves a lease nobody holds |
| `Leadership.LostWinBlocksKey` | internal/leadership/etcd.go:53-57 | a win without an answer whose revocation is lost leaves no rightful leader, and nobody can win until that lease expires |
| `Leadership.TwoNodesInLeaderRole` | internal/node/manager.go:201-216 | two nodes can be in the leader role at once, one of them without a live lease |
| `Leadership.Etcd.TryAcquire` | internal/leadership/etcd.go:43-69 | with any fate of its three calls: it wins exactly when grant and transaction are answered and the key was free; otherwise key and leases are as found, up to a lease nobody revoked, which holds the key when the lost answer was a success |

## Left out

- gRPC, sockets, dialling, timeouts and goroutine scheduling: calls have fates, and steps interleave freely.
- The protobuf encoding: the log takes the payload codec as a parameter with a law; `VarintCodec` shows the law can be met.
- Wal.Log.Append: sequence numbers are unbounded, so the wrap of the 64-bit counter after 2^64 records is not modelled.
- Control.Server.Serve: the server and the standby's handler are modelled on a disk that does not fail; what failing writes and syncs do is proved of the log alone.
- Registry.Registry.ApplySetStation: the registry releases its locks between sub-steps; registry claims are for requests run one at a time. The log-level claims hold for concurrent requests.
- Registry.Registry.ApplyHandshake: the client's UDP address, which only the audio stream uses, is not kept in the object.
- Registry.Registry.InitStations: the clients of an earlier leadership in the same process are not cleared by the code, so promotion is modelled for a process that has not led before.
- Promotion.PromoteToLeader: starting the client-facing server and losing the lease in the middle of a promotion are not modelled.
- Leadership.LeaseExclusivity: clock time and keep-alive timing are replaced by expiry and lease-lost steps that may happen at any moment.
- Promotion.FailOver: a standby that starts empty behind a leader with records is covered by the durability clause only, since its log need not become a prefix.
- Registry.Registry.RollbackSetStation: like the code, the rollbacks restore which station a client is on, not its position in the list.
- The coordinator's own lastWalSeq is kept in the class `Coordinator` but not in the step system, where nothing reads it.
- Audio streaming, UDP sends, the server command line, status output, benchmarks and the command programs.
