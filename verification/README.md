# Verification of pmd

pmd is a gossip-based cluster membership daemon. Every daemon keeps a replica of one document with the nodes
of the cluster and the services on them, talks to its peers over authenticated connections, sends each peer
the part of the document that the peer lacks, and declares a peer dead when its heartbeats stop. This project
models that behaviour in Dafny 4.11 and proves properties of every run of a cluster.

`dafny verify dfyconfig.toml` checks everything.

## How the model is built

| file | what it models |
|---|---|
| `Causality.dfy` | version vectors and dots |
| `Document.dfy` | the replicated JSON document, as far as the daemon uses it |
| `Membership.dfy`, `MembershipState.dfy` | reading and writing nodes and services: as functions, and as the `Membership` object |
| `Daemon.dfy`, `DaemonState.dfy` | the state behind the daemon's lock and its critical sections: as functions, and as the `DaemonState` object |
| `Sessions.dfy` | one daemon with all its peer tasks, as a state machine over the steps between lock operations |
| `Replication.dfy` | what keeps a set of replicas consistent |
| `Effects.dfy` | what an action does to each handle, session, token, event log, document and wire |
| `Cluster.dfy`, `ClusterInvariant.dfy` | any number of daemons, connections and messages under way; the invariant of every run |
| `Delivery.dfy`, `Guarantees.dfy`, `Tombstones.dfy`, `Provenance.dfy`, `Origins.dfy`, `Convergence.dfy`, `Services.dfy` | what follows for every run |
| `SyncRound.dfy`, `Agreement.dfy`, `Encounters.dfy`, `Reconnection.dfy`, `CrossedDials.dfy`, `Leftovers.dfy` | what is always possible: how runs can go on from any reachable world |
| `EventStream.dfy` | the subscribe loop |
| `PeerReader.dfy`, `Framing.dfy` | the reader task with its bounded channel, and frames on a byte stream |
| `PhiDetector.dfy` | the phi accrual failure detector |
| `Mesh.dfy` | mesh expansion |
| `CivilDate.dfy` | `format_epoch` |

The document library is not in the repository. Its model is the small one its API notes suggest (`PLAN.md`
lines 154-163): a write carries its dot and the vector its writer had seen, a delta is the writes a vector
does not cover plus the sender's vector, a merge is union plus pointwise maximum, and reading a path picks
one of its causally maximal writes. Which one is picked is a parameter (`Rule`): the theorems hold for every
lawful rule. Only these local laws are given; gap-freedom, convergence, permanence of removals and agreement
of lookups with the member list are proved from what the daemon does.

A run starts from an empty cluster. Nodes start (each under an id never used before), dial each other, and
take the steps of their peer tasks in any interleaving; wires are first-in-first-out and can lose whatever is
still on them; a task can fail at any write. Random choices and timers are nondeterministic steps.

Some behaviour of the code that the model keeps although one might not expect it:

- A write that fails between registration and the message loop ends the session without cleanup (phase
  `Leaked`), so its handle stays. One failed write can shut a peer out in this way (`Leftovers.LeakCanHappen`), as
  long as no other session with it is left that could clean up (`Leftovers.OtherSessionFreesPeer`), and then only a
  leave command for its address lets it in again (`Guarantees.LeakShutsOut`, `Guarantees.ActionKeepsBlocked`).
- The leave command drops the handle but not the session, and a cleanup removes the handle by node id, whoever
  owns it. So a node can be in two sessions with one peer (`Leftovers.LeaveLeavesTwo`), and can tombstone a peer
  that it is in session with (`Leftovers.OldSessionTakesHandle`). The session balance counts exactly how far
  sessions and handles drift apart, and `Guarantees.RemovalReaches` says which sessions then miss a removal.
- Simultaneous dials can cost both connections, and then each node tombstones the other
  (`CrossedDials.DialsCanCross`).
- A node that had not seen another one join can remove it, and that removal need not last
  (`Reconnection.EarlyRemovalUndone`). `Tombstones.UnlistedForEveryRule` says exactly when a removal is final.
- A running peer whose removal is final stays unlisted although it can connect again under the same id
  (`Reconnection.RemovedPeerCanReconnect`, `Reconnection.RemovedPeerComesBack`).
- `lookup_service` does not look for tombstones itself and reports port 0 for an entry without one. On an
  arbitrary document it can disagree with the member list (`Membership.LookupCanDisagree`);
  `Membership.LookupMatchesScan` says exactly when, and `Tombstones.LookupAgrees` that no run gets there.
- `read_frame` reports a header that is cut short as the end of the stream, although its comment speaks of a
  clean end only. The writer accepts frames that the reader refuses as too large.
- A window size of 0 keeps one sample, and a window of at most one sample never raises suspicion. With a zero
  deviation the level is 0 below the mean and 100 from the mean on: floating-point division makes `y` infinite
  or not a number there, and the floor under `1 - P` absorbs both.
- At shutdown the node removes itself without telling its subscribers, so what they replay is then wrong exactly if
  it still holds the node itself (`EventStream.ReplayExact`).

## Model

| member | source | states |
|---|---|---|
| Guarantees.NoGaps | crates/pmd/src/daemon/peer.rs:417-445 | in every world of every run a replica holds, for each number its vector covers, the author's own write, and its vector is never ahead of an author |
| Guarantees.StoredVectorsBehind | crates/pmd/src/daemon/peer.rs:105-126 | the vector stored for a peer never runs ahead of the peer's own, under any interleaving of handshakes, syncs, leaves and reconnects |
| Guarantees.DeltaSyncIsFullSync | crates/pmd/src/daemon/membership.rs:192-202 | merging the delta computed from the stored vector equals merging the full delta, and the receiver then covers the sender's vector |
| Guarantees.SyncUnderWayIsFull | crates/pmd/src/daemon/peer.rs:417-426 | every sync on a wire, however old, still acts on its receiver as the sender's whole document as of the message's vector would |
| ClusterInvariant.RunInv | crates/pmd/src/daemon/peer.rs:54-337 | replication, wiring and session invariants hold in every world of every run |
| Replication.MergeStep | crates/pmd/src/daemon/peer.rs:440-445 | merging a delta that fits its receiver keeps all replicas gap-free and causally closed |
| Replication.LocalWriteStep | crates/pmd/src/daemon/membership.rs:61-111 | a local write keeps all replicas gap-free, and nobody covers its dot beforehand |
| Replication.DeltaActsAsFull | crates/pmd/src/daemon/membership.rs:192-202 | a fitting delta acts as the part of the sender's document its vector covers |
| Document.LocalWriteWins | crates/pmd/src/daemon/membership.rs:74-85 | a local write is the only causally maximal write of its path and leaves every other path's candidates alone |
| Document.MergeOrderIrrelevant | PLAN.md:158 | merging is commutative and idempotent |
| Membership.LookupMatchesScan | crates/pmd/src/daemon/membership.rs:114-149 | on any document, lookup gives what a scan of the members gives if and only if no offering node is missing from the members or lacks the port |
| Membership.ReadersExact | crates/pmd/src/daemon/membership.rs:152-263 | what the readers show of any document, spelled out: member ids, members and services, with their values |
| Membership.LookupExact | crates/pmd/src/daemon/membership.rs:114-149 | what a lookup finds in any document, spelled out: also a node that is marked dead, and port 0 for an entry without a port |
| Membership.LookupCanDisagree | crates/pmd/src/daemon/membership.rs:123-136 | a document on which the two disagree: a listed node with an entry that has no port is found at port 0, and not by the scan |
| Membership.RemoveNodeEffect | crates/pmd/src/daemon/membership.rs:83-93 | after a removal exactly that node is gone from the member ids, and all its services with it |
| Membership.RemoveNodeEntries | crates/pmd/src/daemon/membership.rs:83-93 | entry by entry: the node and its listed services read as tombstones, everything else as before |
| Membership.RegisterShows | crates/pmd/src/daemon/membership.rs:96-104 | the node's services afterwards are those before with exactly this one set, whatever was concurrent or removed there |
| Membership.UnregisterHides | crates/pmd/src/daemon/membership.rs:107-111 | the node's services afterwards are those before without exactly this one |
| Membership.AddNodeShows | crates/pmd/src/daemon/membership.rs:61-76 | members and member ids afterwards are those before with exactly this node set, and its services are kept |
| Membership.StartListsSelf | crates/pmd/src/daemon/mod.rs:65-66 | a daemon that has just started lists itself, with its address and metadata, and nobody else |
| MembershipState.Membership.AddNode | crates/pmd/src/daemon/membership.rs:61-76 | the node becomes a member with this address and metadata and with the services it had, nobody else's membership changes, and the document stays closed |
| MembershipState.Membership.RemoveNode | crates/pmd/src/daemon/membership.rs:83-93 | the loop tombstones the node and every service still shown for it, each once; then exactly this node is gone from the member ids and shows no service |
| MembershipState.Membership.RegisterService | crates/pmd/src/daemon/membership.rs:96-104 | this node's services are those before with exactly this one set, the member ids are as before, and the document stays closed |
| MembershipState.Membership.UnregisterService | crates/pmd/src/daemon/membership.rs:107-111 | this node's services are those before without exactly this one, the member ids are as before, and the document stays closed |
| MembershipState.Membership.LookupService | crates/pmd/src/daemon/membership.rs:114-149 | the loop returns exactly the endpoints of the specification, one per node |
| MembershipState.Membership.MergeRemote | crates/pmd/src/daemon/membership.rs:177-190 | undecodable bytes change nothing; otherwise the merge, and the diff of the member ids before and after; a closed delta keeps the document closed |
| MembershipState.Membership.DiffMembers | crates/pmd/src/daemon/membership.rs:265-292 | every difference between two member maps is reported exactly once and nothing else is |
| Tombstones.RemovedForGood | crates/pmd/src/daemon/membership.rs:78-93 | after a node that had seen n join removes n, no replica whose vector covers the removal lists n again, in any continuation of the run |
| Tombstones.UnlistedForEveryRule | crates/pmd/src/daemon/membership.rs:80-85 | n is unlisted under every conflict rule if and only if its join is unknown or some held tombstone was written by a node that knew it |
| Reconnection.EarlyRemovalUndone | crates/pmd/src/daemon/membership.rs:80-85 | a run in which a node removes another one that it had not seen join, and lists it later on |
| Reconnection.RemovedPeerCanReconnect | crates/pmd/src/daemon/peer.rs:94-127 | in any reachable world without handles between the two, a peer whose removal is final can connect again, and stays unlisted |
| Reconnection.RemovedPeerComesBack | crates/pmd/src/daemon/peer.rs:172-176 | a run from the empty cluster that gets there: removed for good, connected again, unlisted |
| Tombstones.RunShaped | crates/pmd/src/daemon/mod.rs:65-66 | in every run a node is added once, as its first write, services are its own, and service tombstones follow a node tombstone |
| Tombstones.LookupAgrees | crates/pmd/src/daemon/membership.rs:114-174 | in every world of every run lookup equals scanning the members for the service |
| Services.FoundIff | crates/pmd/src/daemon/membership.rs:114-174 | in every run a lookup finds exactly the endpoints of the listed nodes that show the service, with their address, port and metadata |
| Services.ServiceAdded | crates/pmd/src/daemon/membership.rs:96-104 | in every run, a registration sets exactly this service of the node, and a lookup then finds it under the node's address if and only if the node lists itself; nothing else changes |
| Services.ServiceDropped | crates/pmd/src/daemon/membership.rs:107-111 | in every run, an unregistration takes away exactly this service of the node, and nothing else changes |
| Services.ServicesSpread | crates/pmd/src/daemon/mod.rs:273-291 | in a group left alone, whoever lists a member in the end shows exactly the services that this member showed at the start |
| Services.RegistrationSpreads | crates/pmd/src/daemon/control.rs:160-168 | after a registration and a time left alone, a lookup at any member of the group finds for the node exactly what it registered, if and only if the node is listed there |
| Services.UnregistrationSpreads | crates/pmd/src/daemon/control.rs:169-173 | after an unregistration and a time left alone, nobody in the group finds the service at this node |
| Origins.MembersAsStarted | crates/pmd/src/daemon/mod.rs:65-66 | in every run a document shows a member with the address, metadata and time that the node was started with |
| Origins.ServicesAsRegistered | crates/pmd/src/daemon/membership.rs:96-104 | in every run a document shows a service with a port and metadata that its own node registered |
| Tombstones.MembersAreMemberIds | crates/pmd/src/daemon/membership.rs:215-263 | in every world of every run the member list and the member ids name the same nodes |
| Convergence.PathCarries | crates/pmd/src/daemon/peer.rs:417-445 | along a path of deliveries, each made when nothing is left of what was pending on its connection when the one before was merged, everything its first replica knew reaches its last |
| Delivery.DeliveryCovers | crates/pmd/src/daemon/peer.rs:417-445 | first in, first out: a sync delivered when nothing is left of what was on the wire or being written in an earlier world covers everything its sender had in that world, in every run |
| Convergence.Converges | crates/pmd/src/daemon/mod.rs:273-291 | any group that stops writing and merges nothing more from outside, such as the survivors of stops and crashes, ends up with equal vectors, writes, members and answers to every lookup once the deliveries of the schedule, given by their actions alone, lead from every member of it to every other |
| Convergence.AgreesOnUnion | crates/pmd/src/daemon/membership.rs:177-206 | what such a group agrees on is every write that some member held at the start, and nothing else |
| Agreement.GroupCanAgree | crates/pmd/src/daemon/mod.rs:273-291 | from any reachable world a group that is linked up by live sessions can be led to equal vectors, writes, members and lookups by its own steps, whatever became of the rest |
| SyncRound.TickReachesPeer | crates/pmd/src/daemon/peer.rs:417-455 | from any reachable world, in whatever phases the two ends of a live connection are and whatever is under way between them, steps of these two ends alone lead to the peer covering the vector of a sender that has the peer's handle |
| Daemon.ReplayDiff | crates/pmd/src/daemon/membership.rs:265-292 | replaying a reported diff over the old ids gives the new ids |
| Daemon.DiffExact | crates/pmd/src/daemon/membership.rs:265-292 | a diff spelled out: each node that came with its new address, each that went with its old one, and each once |
| Daemon.LeaveAllDrops | crates/pmd/src/daemon/mod.rs:251-263 | a tick's leave commands drop exactly the handles whose address was named |
| DaemonState.DaemonState.constructor | crates/pmd/src/daemon/mod.rs:65-80 | the state after startup: no peers, no events, and this node, with its address and metadata, as the only member |
| DaemonState.DaemonState.RegisterInbound | crates/pmd/src/daemon/peer.rs:94-127 | check and register in one critical section: the handle has the announced address, the task and an empty vector, and no other handle changes |
| DaemonState.DaemonState.RegisterOutbound | crates/pmd/src/daemon/peer.rs:263-287 | check and register in one critical section: the handle has the announced address, the task and the acknowledged vector, and no other handle changes |
| DaemonState.DaemonState.InitialSync | crates/pmd/src/daemon/peer.rs:289-303 | a closed delta that holds every write of the document, with the document's vector |
| DaemonState.DaemonState.GossipSync | crates/pmd/src/daemon/peer.rs:417-426 | nothing without a handle; otherwise a closed delta that makes up the document together with the writes the stored vector covers, without overlap |
| DaemonState.DaemonState.ReceiveSync | crates/pmd/src/daemon/peer.rs:440-455 | merge, the sender's vector remembered in its handle and no other handle changed, and the changes broadcast together; or no change at all |
| DaemonState.DaemonState.CleanUpPeer | crates/pmd/src/daemon/peer.rs:172-188 | handle, node, event and wake-ups after a session, each spelled out |
| DaemonState.DaemonState.RemoveOurselves | crates/pmd/src/daemon/mod.rs:196-206 | this node's own removal at shutdown |
| DaemonState.DaemonState.GossipTick | crates/pmd/src/daemon/mod.rs:274-291 | one connected peer is woken, if there is one |
| DaemonState.DaemonState.ProcessTick | crates/pmd/src/daemon/mod.rs:219-264 | both queues are drained and exactly the handles with a named address are dropped |
| DaemonState.DaemonState.MeshExpand | crates/pmd/src/daemon/mod.rs:299-332 | while the peers are fewer than the square root of the members and than the other members, the address of a member that is neither this node nor a peer ends up queued once; otherwise nothing changes |
| DaemonState.DaemonState.DispatchRequest | crates/pmd/src/daemon/control.rs:86-195 | what each control command changes and answers: the status, one entry per member for the nodes command, the endpoints found for a lookup, and Ok for all that only change something |
| DaemonState.DaemonState.BroadcastEvents | crates/pmd/src/daemon/mod.rs:267-271 | the changes are appended to the event log in order |
| DaemonState.DaemonState.WakeAll | crates/pmd/src/daemon/peer.rs:183-187 | afterwards the channel of every handle is full |
| Sessions.StepCounted | crates/pmd/src/daemon/peer.rs:94-127 | every step keeps sessions and handles in balance |
| Effects.SessionOrder | crates/pmd/src/daemon/peer.rs:54-337 | in every run a session acknowledges, reads the whole document and writes it before its loop, takes tokens and merges only in it, and cleans up only after it |
| Effects.ActionEffect | crates/pmd/src/daemon/peer.rs:94-188 | in every run, part by part: document, handles, sessions, tokens and events of the acting node change as stated, of every other node nothing, and a started node shows itself alone |
| Effects.ActionWire | crates/pmd/src/daemon/peer.rs:129-158 | what every action does to a wire, message by message |
| Effects.HandlesAfter | crates/pmd/src/daemon/peer.rs:440-445 | the life of a handle in every run: the announced address and first vector, then the vector of each sync heard, until a cleanup or a leave, and no other change |
| Provenance.SyncRemembered | crates/pmd/src/daemon/peer.rs:440-445 | in every run, after a merge the handle of the sender has exactly the sync's vector, every other handle is as before, and the next delta holds nothing which that vector covers |
| Provenance.NextDeltaExact | crates/pmd/src/daemon/peer.rs:417-426 | in every run a woken session reads exactly the writes that the stored vector does not cover, or nothing without a handle |
| Provenance.FirstVector | crates/pmd/src/daemon/peer.rs:113-126 | a handle begins with no vector where the peer dialled, and with the vector the peer had when it registered where it was dialled |
| Provenance.RunTruthful | crates/pmd/src/daemon/peer.rs:129-143 | in every run handshakes and acknowledgements carry the sender's id and address, and an acknowledgement its vector at registration |
| Provenance.HandleIntroduced | crates/pmd/src/daemon/peer.rs:113-123 | in every run the address of a handle is the one its peer announced on that connection |
| Provenance.SessionIntroduced | crates/pmd/src/daemon/peer.rs:177-181 | in every run the address that a session keeps for its last event is the one its peer announced |
| Provenance.LeaveByAnnouncedAddress | crates/pmd/src/daemon/mod.rs:251-263 | a leave command drops a peer's handle if and only if it names the address that the peer announced |
| Sessions.SessionExact | crates/pmd/src/daemon/peer.rs:172-176 | where no leave dropped a handle of n, its handle and its one live session stand for each other |
| Guarantees.SessionsBalance | crates/pmd/src/daemon/mod.rs:251-263 | live sessions plus cleanups that found no handle equal the handle plus the handles dropped by leave, in every run |
| Guarantees.OneSessionPerHandle | crates/pmd/src/daemon/peer.rs:317-321 | in leave-free runs the live sessions with n are exactly the handle's own, or none |
| Sessions.HandleDropped | crates/pmd/src/daemon/peer.rs:172-175 | a handle is dropped by a cleanup for its node or a leave command for its address, and by no other step |
| Guarantees.LeakShutsOut | crates/pmd/src/daemon/peer.rs:130-157 | where a write failed before the loop and no session with that peer is left that could clean up, the handle stays and no session with the peer is registered, in any continuation, until a leave command for its address |
| Guarantees.ActionKeepsBlocked | crates/pmd/src/daemon/mod.rs:251-263 | an action ends that state if and only if it is this leave command |
| Leftovers.LeakCanHappen | crates/pmd/src/daemon/peer.rs:130-142 | one failed acknowledgement leads there from any reachable world without a handle for the peer and without a session with it that could still clean up, also after earlier leaves and leaks |
| Leftovers.OtherSessionFreesPeer | crates/pmd/src/daemon/peer.rs:172-176 | the condition is exact: where another session with the peer is neither cleaned up nor leaked, the run can go on so that its cleanup drops the handle without a leave command |
| Leftovers.LeaveLeavesTwo | crates/pmd/src/daemon/mod.rs:251-263 | from any reachable world where two nodes are without handles for each other, leave commands can lead to two live sessions between them, the first without its handle |
| Leftovers.OldSessionTakesHandle | crates/pmd/src/daemon/peer.rs:172-176 | the end of one of two sessions with a peer takes the handle of the other: the node tombstones a peer that it is in session with |
| CrossedDials.DialsCanCross | crates/pmd/src/daemon/peer.rs:94-100 | from any reachable world where two nodes are without handles for each other, simultaneous dials can lead to a world where each has registered the other's connection and cannot conclude its own, and on to the loss of both, each node having tombstoned the other |
| CrossedDials.RegistersIff | crates/pmd/src/daemon/peer.rs:263-287 | a waiting acknowledgement can be concluded, and a waiting handshake answered, if and only if there is no session under that task and no handle for the peer |
| CrossedDials.LostForGood | crates/pmd/src/daemon/peer.rs:266-269 | a connection whose acknowledgement was turned down is never concluded, and once its responder is cleaned up it is never revived, in any continuation |
| Sessions.StepAwake | crates/pmd/src/daemon/peer.rs:317-333 | every step keeps the wake-up property for every session that owns its handle |
| Sessions.FinishWakes | crates/pmd/src/daemon/peer.rs:183-187 | a cleanup fills exactly the channels of sessions whose handle is still in place |
| Guarantees.RemovalReaches | crates/pmd/src/daemon/peer.rs:183-187 | in every run a cleanup's removal reaches a session in its loop if and only if that had a token or owns the handle of another peer; a session left without its handle misses it |
| Guarantees.RemovalIsAnnounced | crates/pmd/src/daemon/peer.rs:172-188 | no lost wake-up: in leave-free runs every session in its loop has sent the last removal or has a token, or is writing it |
| Guarantees.OwnersAreAwake | crates/pmd/src/daemon/peer.rs:417-426 | the same in every run for every session that owns its handle, in any phase |
| Sessions.StepEvents | crates/pmd/src/daemon/peer.rs:172-182 | except at shutdown, what a step broadcasts is what it did to the member ids |
| Guarantees.EventReplay | crates/pmd/src/daemon/membership.rs:177-190 | replaying all events since a snapshot gives the current member ids, exactly until shutdown and up to the node itself after |
| EventStream.Subscriber.Forward | crates/pmd/src/daemon/control.rs:46-72 | what a subscriber is sent is a contiguous piece of the log from its subscription on, also when it lags or its connection fails |
| EventStream.SubscriberKnowsMembers | crates/pmd/src/daemon/control.rs:46-72 | a subscriber served up to some world follows every later log, and once it is up to date what it was forwarded, replayed over its snapshot, gives the member ids, up to the node itself |
| EventStream.ReplayExact | crates/pmd/src/daemon/mod.rs:196-206 | the replayed view is the member ids if and only if the node has not shut down since the snapshot or the view does not hold the node itself |
| Origins.EventsTrue | crates/pmd/src/daemon/peer.rs:172-182 | in every run an event carries the address its node was started with, or for a session's end the one announced to it |
| Origins.JoinedAddress | crates/pmd/src/daemon/membership.rs:265-292 | the address in a joined event is the one that every member list ever shows for the node |
| Framing.ByteStream.WriteFrame | crates/pmd/src/protocol.rs:170-181 | one frame is appended, or nothing when the length does not fit 32 bits |
| Framing.ByteStream.ReadFrame | crates/pmd/src/protocol.rs:184-201 | the read loop into fixed buffers gives the specified result and leaves the specified rest, in every error case, also when the data ends in an I/O error |
| Framing.HeaderRoundTrip | crates/pmd/src/protocol.rs:175-193 | four bytes hold the length exactly, the most significant first |
| Framing.ReadFrameBack | crates/pmd/src/protocol.rs:193-200 | a written frame reads back if and only if its payload is at most 16 MiB |
| Framing.FramesRoundTrip | crates/pmd/src/protocol.rs:170-201 | messages written back to back read back as the same messages, then the end |
| Framing.CutStream | crates/pmd/src/protocol.rs:184-201 | a stream cut anywhere gives the whole messages, then the end inside or at a header and an error inside a payload |
| PeerReader.HandledInOrder | crates/pmd/src/daemon/peer.rs:370-388 | in every interleaving the handled messages are a prefix of the decoded ones, all of them once the channel is found closed |
| PeerReader.HandledIsPrefixOfSent | crates/pmd/src/daemon/peer.rs:390-468 | end to end: whatever was sent, wherever the stream was cut, the messages handled are the first ones sent |
| PhiDetector.PhiAccrualDetector.HeartbeatAt | crates/pmd/src/daemon/failure_detector.rs:55-64 | the in-place window update is the specified one |
| PhiDetector.WindowIsLastGaps | crates/pmd/src/daemon/failure_detector.rs:55-64 | after any history the window is exactly its last gaps, in order |
| PhiDetector.WindowExact | crates/pmd/src/daemon/failure_detector.rs:55-64 | the window gap by gap: how many of the last gaps it holds, in which order, and 0 for a heartbeat earlier than the one before |
| PhiDetector.MeanTelescopes | crates/pmd/src/daemon/failure_detector.rs:110-116 | for heartbeats in order the mean is the spanned time divided by the number of gaps |
| PhiDetector.NoEarlySuspicion | crates/pmd/src/daemon/failure_detector.rs:81-83 | the level is 0 before the third heartbeat, and always with a window of at most one |
| PhiDetector.PhiMonotoneAndBounded | crates/pmd/src/daemon/failure_detector.rs:75-97 | without a heartbeat the level never falls and stays between 0 and 100 |
| PhiDetector.HighThresholdNeverFires | crates/pmd/src/daemon/peer.rs:400-415 | a threshold of 100 or more is never exceeded |
| PhiDetector.SilenceIsSuspected | crates/pmd/src/daemon/peer.rs:400-415 | with two samples, silence eventually and lastingly exceeds every threshold below 100 |
| PhiDetector.JitterIsTolerated | crates/pmd/src/daemon/failure_detector.rs:75-140 | if all gaps and the silence lie in a band, the level is at most the curve at the band's width over the deviation floor |
| PhiDetector.DeviationInBand | crates/pmd/src/daemon/failure_detector.rs:118-133 | intervals within a band have a deviation between 0 and the band's width |
| PhiDetector.DeviationExact | crates/pmd/src/daemon/failure_detector.rs:118-133 | the squared deviation times the number of samples is the sum of their squares less the mean times their sum |
| PhiDetector.NoDeviationIff | crates/pmd/src/daemon/failure_detector.rs:118-133 | the deviation is 0 if and only if all samples are equal |
| PhiDetector.TwoSamples | crates/pmd/src/daemon/failure_detector.rs:118-133 | two samples deviate by half their distance |
| PhiDetector.LevelExact | crates/pmd/src/daemon/failure_detector.rs:75-97 | the level spelled out, with the logistic probability at its number: so many deviations, no less than the floor, beyond the mean |
| PhiDetector.LevelWithoutDeviation | crates/pmd/src/daemon/failure_detector.rs:85-97 | with neither a deviation nor a floor the level is 100 from the mean on and 0 before |
| PhiDetector.TinyExact | crates/pmd/src/daemon/failure_detector.rs:93-97 | the floor under 1 - P is ten to the minus one hundred |
| PhiDetector.SilenceIsNoticed | crates/pmd/src/daemon/failure_detector.rs:75-97 | silence that exceeds the band by y times its width, or the deviation floor if greater, raises the level to at least the curve at y |
| Mesh.CandidateExists | crates/pmd/src/daemon/mod.rs:308-323 | whenever the guard lets expansion proceed there is an indirect member, even if peers are no members and the node itself is not one |
| Mesh.WantsIff | crates/pmd/src/daemon/mod.rs:308-313 | the guard spelled out: the peers are fewer than the square root of the members and than the other members |
| Mesh.ExpansionStops | crates/pmd/src/daemon/mod.rs:308-313 | over a fixed membership expansion adds members other than the node, loses no peer, and ends exactly at the lesser of the rounded-up square root and the number of other members |
| CivilDate.YearOfEraBracket | crates/pmd/src/main.rs:293-295 | the division formula finds the year of the era that the day falls into |
| CivilDate.MonthDayIsTable | crates/pmd/src/main.rs:296-298 | the division by 153 is the table of months |
| CivilDate.DayZero | crates/pmd/src/main.rs:290-299 | day 0 is 1970-01-01 |
| CivilDate.NextDay | crates/pmd/src/main.rs:290-299 | day n + 1 is the Gregorian successor of day n, for every n |
| CivilDate.DayNumberOfDate | crates/pmd/src/main.rs:290-299 | an independent day count, year by year and month by month, recovers the day |
| CivilDate.DateOfDayNumber | crates/pmd/src/main.rs:290-299 | every valid date from 1970 on is the date of its day number |
| CivilDate.FieldsExact | crates/pmd/src/main.rs:281-299 | all printed fields are in range and give the timestamp back |
| CivilDate.FormatRoundTrip | crates/pmd/src/main.rs:281-302 | the printed string determines the timestamp |
| CivilDate.FormatLayout | crates/pmd/src/main.rs:301 | the printed string character by character: widths, digits, separators and fields |

## Left out

- TLS, the HMAC of the cookie and nonces: whether a handshake is accepted is a nondeterministic step; peers are
  taken to state their own node id and vector truthfully.
- The codecs for messages, deltas and control requests: the message codec is a parameter of which only the
  round trip is used; a delta that does not decode is an input case of `MergeRemote`.
- Service names containing `/`, which change the document path: a name is one path component here.
- Addresses are strings that always parse; the daemon only writes printed socket addresses.
- Floating-point rounding: the detector is over the reals, with `exp`, `log10` and `sqrt` as parameters that have
  the stated laws; the mesh target is the least t with t * t >= n.
- Heartbeats and notifications in the cluster model: they do not touch the document or the handles' vectors; that
  a session ends because of the detector is one of the reasons for the step `Exit`.
- Wall-clock timing, including the grace period at shutdown: nothing says that the last sync arrives.
- Simultaneous dials: no liveness is claimed for them, since both connections can be lost.
- I/O errors in the reader task's interleaving model, which reads streams that end: `ReadFrame` covers them, and the
  loop treats them like any other read error.
- Metrics, discovery plugins, configuration and the command line; of the suspicion level that the nodes command
  shows, only whether there is one.
- Framing.ByteStream.WriteFrame: does not model a connection that fails while a frame is written; in the cluster
  model that is a step of its own (`Fail`, `Exit`), and the wire may lose what was written.
- Rejected connections leave no trace in the model beyond the consumed message.
- The peer-task loops are modelled as steps on values, since their point is the interleaving; the critical
  sections they run are the methods of `DaemonState`, and the two share the functions of `Daemon.dfy`.
- DaemonState.DaemonState.MeshExpand, DaemonState.DaemonState.GossipTick: which candidate is drawn is left open.
