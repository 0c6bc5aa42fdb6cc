/**
 The state a daemon keeps behind its lock and the critical sections that change it, as functions on
 values. `DaemonState.dfy` holds the same operations in their imperative form.
 */
module Daemon {
  import opened Causality
  import opened Document
  import opened Membership

  /** One end of one connection: the peer task that serves it. */
  datatype TaskId = TaskId(conn: nat, initiator: bool)

  /** What is kept per connected peer; `task` names the peer task at the far end of `gossip_tx`. */
  datatype Handle = Handle(addr: string, lastVv: VersionVector, task: TaskId)

  /**
   `tokens` are the peer tasks whose wake-up channel is full (its capacity is 1, so it is full or empty);
   `events` is everything broadcast to subscribers so far.
   */
  datatype Shared = Shared(
    doc: Doc, peers: map<NodeId, Handle>, tokens: set<TaskId>, events: seq<MembershipChange>)

  /** Insert a handle; the caller has checked under the same lock that there is none. */
  function Register(sh: Shared, remote: NodeId, addr: string, lastVv: VersionVector, task: TaskId): Shared
    requires remote !in sh.peers
  {
    sh.(peers := sh.peers[remote := Handle(addr, lastVv, task)])
  }

  /** `try_send` to every handle: a full channel stays full, an empty one becomes full. */
  function SignalAll(sh: Shared): Shared {
    sh.(tokens := sh.tokens + set n | n in sh.peers :: sh.peers[n].task)
  }

  /** `try_send` to one handle, if the peer is still there. */
  function SignalOne(sh: Shared, remote: NodeId): Shared {
    if remote in sh.peers then sh.(tokens := sh.tokens + {sh.peers[remote].task}) else sh
  }

  function StoreVv(peers: map<NodeId, Handle>, remote: NodeId, vv: VersionVector): map<NodeId, Handle> {
    if remote in peers then peers[remote := peers[remote].(lastVv := vv)] else peers
  }

  /** Handling a sync: merge, remember the sender's vector, broadcast the detected changes. */
  function HandleSync(sh: Shared, remote: NodeId, delta: Delta, senderVv: VersionVector,
                      changes: seq<MembershipChange>): Shared {
    sh.(doc := MergeDelta(sh.doc, delta), peers := StoreVv(sh.peers, remote, senderVv),
        events := sh.events + changes)
  }

  /** The end of a session: drop the handle, tombstone the node, tell subscribers, wake everybody left. */
  function CleanUp(sh: Shared, remote: NodeId, addr: string, names: seq<string>): Shared {
    SignalAll(Shared(RemoveNode(sh.doc, remote, names), sh.peers - {remote}, sh.tokens,
                     sh.events + [MembershipChange(NodeLeft, remote, addr)]))
  }

  function PeersAt(peers: map<NodeId, Handle>, addr: string): set<NodeId> {
    set n | n in peers && peers[n].addr == addr
  }

  /** The leave command: drop the handles with that address. The sessions themselves go on. */
  function Leave(sh: Shared, addr: string): Shared {
    sh.(peers := sh.peers - PeersAt(sh.peers, addr))
  }

  /** A tick's leave commands, one after the other. */
  function LeaveAll(sh: Shared, addrs: seq<string>): Shared
    decreases |addrs|
  {
    if addrs == [] then sh else LeaveAll(Leave(sh, addrs[0]), addrs[1..])
  }

  /** A tick of leaves drops exactly the handles whose address was named. */
  lemma {:induction false} LeaveAllDrops(sh: Shared, addrs: seq<string>)
    ensures LeaveAll(sh, addrs) == sh.(peers := map n | n in sh.peers && sh.peers[n].addr !in addrs :: sh.peers[n])
    decreases |addrs|
  {
    if addrs == [] {
      assert sh.peers == map n | n in sh.peers && sh.peers[n].addr !in addrs :: sh.peers[n];
    } else {
      var next := Leave(sh, addrs[0]);
      LeaveAllDrops(next, addrs[1..]);
      assert forall a :: a in addrs <==> a == addrs[0] || a in addrs[1..];
      assert (map n | n in next.peers && next.peers[n].addr !in addrs[1..] :: next.peers[n])
          == (map n | n in sh.peers && sh.peers[n].addr !in addrs :: sh.peers[n]);
    }
  }

  /** Graceful shutdown: tombstone ourselves and wake every session. Nothing is broadcast. */
  function RemoveSelf(sh: Shared, names: seq<string>): Shared {
    SignalAll(sh.(doc := RemoveNode(sh.doc, sh.doc.replica, names)))
  }

  // -- Membership events --------------------------------------------------------------------------

  function Joined(m: map<NodeId, string>, n: NodeId): MembershipChange
    requires n in m
  {
    MembershipChange(NodeJoined, n, m[n])
  }

  function Left(m: map<NodeId, string>, n: NodeId): MembershipChange
    requires n in m
  {
    MembershipChange(NodeLeft, n, m[n])
  }

  /** `changes` reports each difference between two member maps exactly once, in any order. */
  ghost predicate IsDiff(before: map<NodeId, string>, after: map<NodeId, string>,
                         changes: seq<MembershipChange>) {
    && (forall c :: c in changes <==>
          || (c.nodeId in after && c.nodeId !in before && c == Joined(after, c.nodeId))
          || (c.nodeId in before && c.nodeId !in after && c == Left(before, c.nodeId)))
    && (forall i, j :: 0 <= i < j < |changes| ==> changes[i] != changes[j])
  }

  /** A diff spelled out: who came, with the address after, and who went, with the address before, each once. */
  lemma DiffExact(before: map<NodeId, string>, after: map<NodeId, string>, changes: seq<MembershipChange>)
    ensures IsDiff(before, after, changes) <==>
      && (forall n, addr :: MembershipChange(NodeJoined, n, addr) in changes
            <==> n !in before && n in after && addr == after[n])
      && (forall n, addr :: MembershipChange(NodeLeft, n, addr) in changes
            <==> n in before && n !in after && addr == before[n])
      && (forall i, j :: 0 <= i < j < |changes| ==> changes[i] != changes[j])
  {
    var came := (n, addr) => n !in before && n in after && addr == after[n];
    var went := (n, addr) => n in before && n !in after && addr == before[n];
    assert forall c: MembershipChange :: c == MembershipChange(c.event, c.nodeId, c.addr);
    forall c: MembershipChange
      ensures (c.nodeId in after && c.nodeId !in before && c == Joined(after, c.nodeId))
              <==> c.event.NodeJoined? && came(c.nodeId, c.addr)
      ensures (c.nodeId in before && c.nodeId !in after && c == Left(before, c.nodeId))
              <==> c.event.NodeLeft? && went(c.nodeId, c.addr)
    {
    }
  }

  function ApplyEvent(ids: set<NodeId>, c: MembershipChange): set<NodeId> {
    match c.event
    case NodeJoined => ids + {c.nodeId}
    case NodeLeft => ids - {c.nodeId}
  }

  /** A subscriber's view: start from `ids` and apply the events in order. */
  function Replay(ids: set<NodeId>, events: seq<MembershipChange>): set<NodeId>
    decreases |events|
  {
    if events == [] then ids else Replay(ApplyEvent(ids, events[0]), events[1..])
  }

  lemma {:induction false} ReplayAppend(ids: set<NodeId>, a: seq<MembershipChange>, b: seq<MembershipChange>)
    ensures Replay(ids, a + b) == Replay(Replay(ids, a), b)
    decreases |a|
  {
    if a == [] {
      assert a + b == b;
    } else {
      assert (a + b)[1..] == a[1..] + b;
      ReplayAppend(ApplyEvent(ids, a[0]), a[1..], b);
    }
  }

  /** If the events about `n` are all of one kind, they decide whether `n` is in the view. */
  lemma {:induction false} ReplayOf(ids: set<NodeId>, events: seq<MembershipChange>, n: NodeId, kind: MembershipEvent)
    requires forall c :: c in events && c.nodeId == n ==> c.event == kind
    ensures (exists c :: c in events && c.nodeId == n) ==> (n in Replay(ids, events) <==> kind == NodeJoined)
    ensures !(exists c :: c in events && c.nodeId == n) ==> (n in Replay(ids, events) <==> n in ids)
    decreases |events|
  {
    if events != [] {
      assert forall c :: c in events <==> c == events[0] || c in events[1..];
      ReplayOf(ApplyEvent(ids, events[0]), events[1..], n, kind);
    }
  }

  /** Replaying a diff over the old member ids gives the new ones. */
  lemma ReplayDiff(before: map<NodeId, string>, after: map<NodeId, string>, changes: seq<MembershipChange>)
    requires IsDiff(before, after, changes)
    ensures Replay(before.Keys, changes) == after.Keys
  {
    forall n ensures n in Replay(before.Keys, changes) <==> n in after {
      if n in after && n !in before {
        ReplayOf(before.Keys, changes, n, NodeJoined);
        assert Joined(after, n) in changes;
      } else {
        ReplayOf(before.Keys, changes, n, NodeLeft);
        if n in before && n !in after {
          assert Left(before, n) in changes;
        }
      }
    }
  }
}
