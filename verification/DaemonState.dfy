/**
 The daemon's shared state as the object its tasks lock, with one method per critical section. Each method
 takes `View()` where the function of the same name in `Daemon` says.
 */
module DaemonState {
  import opened Causality
  import opened Document
  import opened Membership
  import opened Daemon
  import opened Mesh
  import Store = MembershipState

  datatype ControlRequest =
    | Status
    | Nodes
    | Join(addr: string)
    | LeavePeer(addr: string)
    | Shutdown
    | RegisterName(name: string, port: Port, metadata: map<string, string>)
    | UnregisterName(name: string)
    | LookupName(name: string)

  /** A member as the nodes command shows it; only a connected peer other than this node has a suspicion level. */
  datatype NodeStatus = NodeStatus(info: NodeInfo, isLocal: bool, hasLevel: bool)

  datatype ControlResponse =
    | Ok
    | StatusOf(nodeId: NodeId, peerCount: nat, nodeCount: nat)
    | NodesOf(nodes: map<NodeId, NodeStatus>)
    | Services(entries: seq<Endpoint>)

  class DaemonState {
    const membership: Store.Membership
    var peers: map<NodeId, Handle>
    var tokens: set<TaskId>
    var events: seq<MembershipChange>
    var pendingJoins: seq<string>
    var pendingLeaves: seq<string>
    var shutdownRequested: bool

    /** What the lock protects, as a value. */
    function View(): Shared
      reads this, membership
    {
      Shared(membership.doc, peers, tokens, events)
    }

    predicate Valid()
      reads membership
    {
      membership.doc.replica == membership.nodeId
    }

    /** Startup: a fresh document with this node's own entry. */
    constructor (nodeId: NodeId, rule: Rule, addr: string, metadata: map<string, string>, now: nat)
      ensures Valid() && membership.nodeId == nodeId && membership.rule == rule && fresh(membership)
      ensures View() == Shared(AddNode(NewDoc(nodeId), nodeId, addr, metadata, now), map[], {}, [])
      ensures Lawful(rule) ==>
        && membership.Sound()
        && Members(membership.doc, rule) == map[nodeId := NodeInfo(nodeId, addr, metadata, now, map[])]
      ensures pendingJoins == [] && pendingLeaves == [] && !shutdownRequested
    {
      var m := new Store.Membership(nodeId, rule);
      m.AddNode(nodeId, addr, metadata, now);
      if Lawful(rule) {
        StartListsSelf(rule, nodeId, addr, metadata, now);
      }
      membership := m;
      peers, tokens, events := map[], {}, [];
      pendingJoins, pendingLeaves, shutdownRequested := [], [], false;
    }

    /** Inbound check-and-register; the vector to acknowledge with, or nothing if the peer is already there. */
    method RegisterInbound(remote: NodeId, addr: string, task: TaskId) returns (vv: Option<VersionVector>)
      modifies this`peers
      ensures remote in old(peers) ==> vv == None && View() == old(View())
      ensures remote !in old(peers) ==>
        vv == Some(membership.doc.vv) && View() == Register(old(View()), remote, addr, EMPTY, task)
      ensures remote !in old(peers) ==>
        && peers == old(peers)[remote := peers[remote]]
        && peers[remote].addr == addr && peers[remote].task == task && peers[remote].lastVv == map[]
    {
      if remote in peers {
        return None;
      }
      vv := Some(membership.doc.vv);
      peers := peers[remote := Handle(addr, EMPTY, task)];
    }

    /** Outbound check-and-register, with the vector the peer acknowledged with. */
    method RegisterOutbound(remote: NodeId, addr: string, remoteVv: VersionVector, task: TaskId) returns (ok: bool)
      modifies this`peers
      ensures ok == (remote !in old(peers))
      ensures View() == if ok then Register(old(View()), remote, addr, remoteVv, task) else old(View())
      ensures ok ==>
        && peers == old(peers)[remote := peers[remote]]
        && peers[remote].addr == addr && peers[remote].task == task && peers[remote].lastVv == remoteVv
    {
      if remote in peers {
        return false;
      }
      peers := peers[remote := Handle(addr, remoteVv, task)];
      ok := true;
    }

    /** The first sync of a session. */
    method InitialSync() returns (delta: Delta, senderVv: VersionVector)
      ensures delta == DeltaSince(membership.doc, EMPTY) && senderVv == membership.doc.vv
      ensures membership.Sound() ==> ValidDelta(delta) && delta.writes == membership.doc.writes
    {
      DeltaSinceSplits(membership.doc, EMPTY);
      delta, senderVv := membership.FullDelta(), membership.doc.vv;
    }

    /** What a task that took a wake-up token sends, if its peer still has a handle. */
    method GossipSync(remote: NodeId) returns (sync: Option<(Delta, VersionVector)>)
      ensures sync == if remote in peers
                      then Some((DeltaSince(membership.doc, peers[remote].lastVv), membership.doc.vv)) else None
      ensures sync.Some? ==>
        && sync.value.0.writes !! Covered(membership.doc, peers[remote].lastVv)
        && sync.value.0.writes + Covered(membership.doc, peers[remote].lastVv) == membership.doc.writes
        && (membership.Sound() ==> ValidDelta(sync.value.0))
    {
      if remote in peers {
        DeltaSinceSplits(membership.doc, peers[remote].lastVv);
        sync := Some((membership.DeltaForPeer(peers[remote].lastVv), membership.doc.vv));
      } else {
        sync := None;
      }
    }

    method BroadcastEvents(changes: seq<MembershipChange>)
      modifies this`events
      ensures events == old(events) + changes
    {
      for i := 0 to |changes|
        invariant events == old(events) + changes[..i]
      {
        assert changes[..i + 1] == changes[..i] + [changes[i]];
        events := events + [changes[i]];
      }
      assert changes[..|changes|] == changes;
    }

    /** A received sync; bytes that do not decode change nothing and end the session. */
    method ReceiveSync(remote: NodeId, decoded: Option<Delta>, senderVv: VersionVector)
      returns (changes: Option<seq<MembershipChange>>)
      requires Valid()
      modifies this`peers, this`events, membership
      ensures Valid() && changes.Some? == decoded.Some?
      ensures decoded.None? ==> View() == old(View())
      ensures decoded.Some? ==>
        && View() == HandleSync(old(View()), remote, decoded.value, senderVv, changes.value)
        && IsDiff(MemberIds(old(membership.doc), membership.rule), MemberIds(membership.doc, membership.rule),
                  changes.value)
      ensures decoded.Some? ==>
        && membership.doc.writes == old(membership.doc.writes) + decoded.value.writes
        && events == old(events) + changes.value && tokens == old(tokens)
        && peers.Keys == old(peers.Keys)
        && (forall n :: n in peers && n != remote ==> peers[n] == old(peers[n]))
        && (remote in peers ==>
              && peers[remote].lastVv == senderVv
              && peers[remote].addr == old(peers[remote].addr) && peers[remote].task == old(peers[remote].task))
      ensures old(membership.Sound()) && (decoded.Some? ==> ValidDelta(decoded.value)) ==> membership.Sound()
    {
      changes := membership.MergeRemote(decoded);
      if changes.None? {
        return;
      }
      if remote in peers {
        peers := peers[remote := peers[remote].(lastVv := senderVv)];
      }
      BroadcastEvents(changes.value);
    }

    /** `try_send` into the wake-up channel of every handle. */
    method WakeAll()
      modifies this`tokens
      ensures View() == SignalAll(old(View()))
      ensures forall u :: u in tokens <==> u in old(tokens) || exists n :: n in peers && peers[n].task == u
    {
      var rest := peers.Keys;
      while rest != {}
        invariant rest <= peers.Keys
        invariant tokens == old(tokens) + set n | n in peers && n !in rest :: peers[n].task
        decreases rest
      {
        var n :| n in rest;
        tokens := tokens + {peers[n].task};
        rest := rest - {n};
      }
    }

    /** The end of a session. */
    method CleanUpPeer(remote: NodeId, addr: string) returns (ghost names: seq<string>)
      requires Valid()
      modifies this`peers, this`tokens, this`events, membership
      ensures Valid() && ServicesToRemove(old(membership.doc), membership.rule, remote, names)
      ensures View() == CleanUp(old(View()), remote, addr, names)
      ensures peers == old(peers) - {remote} && events == old(events) + [MembershipChange(NodeLeft, remote, addr)]
      ensures forall u :: u in tokens <==> u in old(tokens) || exists n :: n in peers && peers[n].task == u
      ensures old(membership.Sound()) ==>
        && MemberIds(membership.doc, membership.rule) == MemberIds(old(membership.doc), membership.rule) - {remote}
        && NodeServices(membership.doc, membership.rule, remote) == map[]
      ensures old(membership.Sound()) ==> membership.Sound()
    {
      peers := peers - {remote};
      names := membership.RemoveNode(remote);
      RemoveNodeReplica(old(membership.doc), remote, names);
      BroadcastEvents([MembershipChange(NodeLeft, remote, addr)]);
      WakeAll();
    }

    /** Graceful shutdown: this node's own removal, announced to the peers but not to subscribers. */
    method RemoveOurselves() returns (ghost names: seq<string>)
      requires Valid()
      modifies this`tokens, membership
      ensures Valid() && ServicesToRemove(old(membership.doc), membership.rule, membership.nodeId, names)
      ensures View() == RemoveSelf(old(View()), names)
      ensures peers == old(peers) && events == old(events)
      ensures forall u :: u in tokens <==> u in old(tokens) || exists n :: n in peers && peers[n].task == u
      ensures old(membership.Sound()) ==>
        MemberIds(membership.doc, membership.rule)
        == MemberIds(old(membership.doc), membership.rule) - {membership.nodeId}
      ensures old(membership.Sound()) ==> membership.Sound()
    {
      names := membership.RemoveNode(membership.nodeId);
      RemoveNodeReplica(old(membership.doc), membership.nodeId, names);
      WakeAll();
    }

    /** The periodic tick: wake one connected peer, whichever was drawn; nothing to do without peers. */
    method GossipTick() returns (ghost chosen: NodeId)
      modifies this`tokens
      ensures peers != map[] ==> chosen in peers
      ensures View() == if peers == map[] then old(View()) else SignalOne(old(View()), chosen)
      ensures tokens == old(tokens) + if peers == map[] then {} else {peers[chosen].task}
    {
      chosen := "";
      if peers.Keys != {} {
        var n :| n in peers.Keys;
        chosen := n;
        tokens := tokens + {peers[n].task};
      }
    }

    /** Drains both queues; the joins are dialled outside the lock, the leaves drop their handles. */
    method ProcessTick() returns (joins: seq<string>)
      modifies this`peers, this`pendingJoins, this`pendingLeaves
      ensures joins == old(pendingJoins) && pendingJoins == [] && pendingLeaves == []
      ensures View() == LeaveAll(old(View()), old(pendingLeaves))
      ensures forall n :: n in peers <==> n in old(peers) && old(peers)[n].addr !in old(pendingLeaves)
      ensures forall n :: n in peers ==> peers[n] == old(peers)[n]
    {
      joins := pendingJoins;
      var leaves := pendingLeaves;
      pendingJoins, pendingLeaves := [], [];
      ghost var goal := LeaveAll(View(), leaves);
      LeaveAllDrops(View(), leaves);
      var i := 0;
      while i < |leaves|
        invariant 0 <= i <= |leaves|
        invariant LeaveAll(View(), leaves[i..]) == goal
        invariant pendingJoins == [] && pendingLeaves == []
      {
        assert leaves[i..][0] == leaves[i] && leaves[i..][1..] == leaves[i + 1..];
        var gone := set n | n in peers && peers[n].addr == leaves[i];
        peers := peers - gone;
        i := i + 1;
      }
      assert leaves[i..] == [];
    }

    /** The address of some member that is neither this node nor a peer, when one more connection is wanted. */
    method PickIndirect(ms: map<NodeId, NodeInfo>) returns (pick: Option<string>, ghost chosen: NodeId)
      ensures if |peers| * |peers| < |ms| && |peers| + 1 < |ms| then
          && chosen in ms && chosen != membership.nodeId && chosen !in peers && pick == Some(ms[chosen].addr)
        else pick == None
    {
      chosen := "";
      ExpansionGuard(ms, membership.nodeId, peers);
      if |peers| >= CeilSqrt(|ms|) || |peers| >= SaturatingSub(|ms|, 1) {
        return None, chosen;
      }
      var indirect := Indirect(ms.Keys, membership.nodeId, peers.Keys);
      var node :| node in indirect;
      return Some(ms[node].addr), node;
    }

    /** Mesh expansion: when a connection is wanted, the address of some indirect member is queued, once. */
    method MeshExpand() returns (ghost chosen: NodeId)
      modifies this`pendingJoins
      ensures var ms := Members(membership.doc, membership.rule);
        if |peers| * |peers| < |ms| && |peers| + 1 < |ms| then
          && chosen in ms && chosen != membership.nodeId && chosen !in peers
          && pendingJoins == if ms[chosen].addr in old(pendingJoins) then old(pendingJoins)
                             else old(pendingJoins) + [ms[chosen].addr]
        else pendingJoins == old(pendingJoins)
    {
      var ms := Members(membership.doc, membership.rule);
      var pick;
      pick, chosen := PickIndirect(ms);
      if pick.Some? && pick.value !in pendingJoins {
        pendingJoins := pendingJoins + [pick.value];
      }
    }

    /** One control command. */
    method DispatchRequest(request: ControlRequest) returns (response: ControlResponse)
      requires Valid()
      modifies this`pendingJoins, this`pendingLeaves, this`shutdownRequested, membership
      ensures Valid()
      ensures View() == match request
        case RegisterName(name, port, metadata) =>
          old(View()).(doc := RegisterService(old(membership.doc), name, port, metadata))
        case UnregisterName(name) => old(View()).(doc := UnregisterService(old(membership.doc), name))
        case _ => old(View())
      ensures pendingJoins == old(pendingJoins) + if request.Join? then [request.addr] else []
      ensures pendingLeaves == old(pendingLeaves) + if request.LeavePeer? then [request.addr] else []
      ensures shutdownRequested == (old(shutdownRequested) || request.Shutdown?)
      ensures request.LookupName? ==>
        response.Services?
        && forall e :: e in response.entries <==> e in Lookup(membership.doc, membership.rule, request.name)
      ensures request.Status? ==>
        response == StatusOf(membership.nodeId, |peers|, |Members(membership.doc, membership.rule)|)
      ensures request.Nodes? ==>
        && response.NodesOf? && response.nodes.Keys == Members(membership.doc, membership.rule).Keys
        && forall n :: n in response.nodes ==>
             && response.nodes[n].info == Members(membership.doc, membership.rule)[n]
             && response.nodes[n].isLocal == (n == membership.nodeId)
             && response.nodes[n].hasLevel == (n in peers && n != membership.nodeId)
      ensures !request.LookupName? && !request.Status? && !request.Nodes? ==> response == Ok
      ensures old(membership.Sound()) ==>
        && membership.Sound()
        && NodeServices(membership.doc, membership.rule, membership.nodeId)
           == (match request
               case RegisterName(name, port, metadata) =>
                 NodeServices(old(membership.doc), membership.rule, membership.nodeId)[
                   name := ServiceInfo(name, port, metadata)]
               case UnregisterName(name) =>
                 NodeServices(old(membership.doc), membership.rule, membership.nodeId) - {name}
               case _ => NodeServices(old(membership.doc), membership.rule, membership.nodeId))
    {
      response := Ok;
      match request
      case Nodes =>
        var ms := Members(membership.doc, membership.rule);
        response := NodesOf(map n | n in ms ::
          NodeStatus(ms[n], n == membership.nodeId, n in peers && n != membership.nodeId));
      case Status =>
        response := StatusOf(membership.nodeId, |peers|, |Members(membership.doc, membership.rule)|);
      case Join(addr) => pendingJoins := pendingJoins + [addr];
      case LeavePeer(addr) => pendingLeaves := pendingLeaves + [addr];
      case Shutdown => shutdownRequested := true;
      case RegisterName(name, port, metadata) => membership.RegisterService(name, port, metadata);
      case UnregisterName(name) => membership.UnregisterService(name);
      case LookupName(name) =>
        var entries := membership.LookupService(name);
        response := Services(entries);
    }
  }

  lemma ExpansionGuard(ms: map<NodeId, NodeInfo>, self: NodeId, peers: map<NodeId, Handle>)
    ensures |peers| < CeilSqrt(|ms|) && |peers| < SaturatingSub(|ms|, 1)
      <==> |peers| * |peers| < |ms| && |peers| + 1 < |ms|
    ensures |peers| * |peers| < |ms| && |peers| + 1 < |ms| ==> Indirect(ms.Keys, self, peers.Keys) != {}
  {
    assert |ms| == |ms.Keys| && |peers| == |peers.Keys|;
    WantsIff(|ms|, |peers|);
    if Wants(|ms|, |peers|) {
      CandidateExists(ms.Keys, self, peers.Keys);
    }
  }

  lemma {:induction false} TombstonesReplica(doc: Doc, id: NodeId, names: seq<string>)
    ensures TombstoneServices(doc, id, names).replica == doc.replica
    decreases |names|
  {
    if names != [] {
      TombstonesReplica(LocalWrite(doc, ServicePath(id, names[0]), Set(DEAD)), id, names[1..]);
    }
  }

  lemma RemoveNodeReplica(doc: Doc, id: NodeId, names: seq<string>)
    ensures RemoveNode(doc, id, names).replica == doc.replica
  {
    TombstonesReplica(TombstoneNode(doc, id), id, names);
  }
}
