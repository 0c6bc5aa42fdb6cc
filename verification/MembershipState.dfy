/** The `Membership` object: a document that is updated in place. */
module MembershipState {
  import opened Causality
  import opened Document
  import opened M = Membership
  import opened Daemon

  class Membership {
    const nodeId: NodeId
    const rule: Rule
    var doc: Doc

    /** The document is closed, which merging a peer's delta keeps if the delta is, and its replica is this node. */
    ghost predicate Sound()
      reads this
    {
      ValidDoc(doc) && Lawful(rule) && doc.replica == nodeId
    }

    constructor (nodeId: NodeId, rule: Rule)
      ensures this.nodeId == nodeId && this.rule == rule && doc == NewDoc(nodeId)
      ensures Lawful(rule) ==> Sound()
    {
      this.nodeId := nodeId;
      this.rule := rule;
      this.doc := NewDoc(nodeId);
    }

    method AddNode(id: NodeId, addr: string, metadata: map<string, string>, now: nat)
      modifies this
      ensures doc == M.AddNode(old(doc), id, addr, metadata, now)
      ensures old(Sound()) ==>
        && Sound() && MemberIds(doc, rule) == MemberIds(old(doc), rule)[id := addr]
        && Members(doc, rule) == Members(old(doc), rule)[
             id := NodeInfo(id, addr, metadata, now, NodeServices(old(doc), rule, id))]
    {
      ghost var before := doc;
      doc := LocalWrite(doc, NodePath(id), Set(AliveRecord(addr, metadata, now)));
      if ValidDoc(before) && Lawful(rule) {
        LocalWriteValid(before, NodePath(id), Set(AliveRecord(addr, metadata, now)));
        AddNodeShows(before, rule, id, addr, metadata, now);
      }
    }

    /** The names of the services of `id`, each once, in any order. */
    method ListServices(id: NodeId) returns (names: seq<string>)
      ensures forall x :: x in names <==> x in NodeServices(doc, rule, id)
      ensures forall i, j :: 0 <= i < j < |names| ==> names[i] != names[j]
    {
      names := [];
      var rest := NodeServices(doc, rule, id).Keys;
      while rest != {}
        invariant rest <= NodeServices(doc, rule, id).Keys
        invariant forall x :: x in names <==> x in NodeServices(doc, rule, id).Keys - rest
        invariant forall i, j :: 0 <= i < j < |names| ==> names[i] != names[j]
        decreases rest
      {
        var x :| x in rest;
        names := names + [x];
        rest := rest - {x};
      }
    }

    /** Tombstones a node and then every service it still shows for it. */
    method RemoveNode(id: NodeId) returns (ghost names: seq<string>)
      modifies this
      ensures ServicesToRemove(old(doc), rule, id, names)
      ensures doc == M.RemoveNode(old(doc), id, names)
      ensures old(Sound()) ==>
        && Sound() && MemberIds(doc, rule) == MemberIds(old(doc), rule) - {id}
        && NodeServices(doc, rule, id) == map[]
    {
      ghost var before := doc;
      doc := LocalWrite(doc, NodePath(id), Set(DEAD));
      var services := ListServices(id);
      names := services;
      ghost var goal := TombstoneServices(doc, id, services);
      var i := 0;
      while i < |services|
        invariant 0 <= i <= |services|
        invariant TombstoneServices(doc, id, services[i..]) == goal
      {
        assert services[i..][0] == services[i] && services[i..][1..] == services[i + 1..];
        doc := LocalWrite(doc, ServicePath(id, services[i]), Set(DEAD));
        i := i + 1;
      }
      assert services[i..] == [];
      if ValidDoc(before) && Lawful(rule) {
        RemoveNodeEntries(before, rule, id, names);
        RemoveNodeEffect(before, rule, id, names);
      }
    }

    method RegisterService(name: string, port: Port, metadata: map<string, string>)
      requires doc.replica == nodeId
      modifies this
      ensures doc == M.RegisterService(old(doc), name, port, metadata)
      ensures old(Sound()) ==>
        && Sound() && MemberIds(doc, rule) == MemberIds(old(doc), rule)
        && NodeServices(doc, rule, nodeId)
           == NodeServices(old(doc), rule, nodeId)[name := ServiceInfo(name, port, metadata)]
    {
      if ValidDoc(doc) && Lawful(rule) {
        LocalWriteValid(doc, ServicePath(nodeId, name), Set(ServiceRecord(port, metadata)));
        ServiceWriteKeepsMembers(doc, rule, nodeId, name, Set(ServiceRecord(port, metadata)));
        RegisterShows(doc, rule, name, port, metadata);
      }
      doc := LocalWrite(doc, ServicePath(nodeId, name), Set(ServiceRecord(port, metadata)));
    }

    method UnregisterService(name: string)
      requires doc.replica == nodeId
      modifies this
      ensures doc == M.UnregisterService(old(doc), name)
      ensures old(Sound()) ==>
        && Sound() && MemberIds(doc, rule) == MemberIds(old(doc), rule)
        && NodeServices(doc, rule, nodeId) == NodeServices(old(doc), rule, nodeId) - {name}
    {
      if ValidDoc(doc) && Lawful(rule) {
        LocalWriteValid(doc, ServicePath(nodeId, name), Op.Remove);
        ServiceWriteKeepsMembers(doc, rule, nodeId, name, Op.Remove);
        UnregisterHides(doc, rule, name);
      }
      doc := LocalWrite(doc, ServicePath(nodeId, name), Op.Remove);
    }

    /** Every endpoint of a service, one per node that offers it. */
    method LookupService(name: string) returns (results: seq<Endpoint>)
      ensures forall e :: e in results <==> e in Lookup(doc, rule, name)
      ensures forall i, j :: 0 <= i < j < |results| ==> results[i].nodeId != results[j].nodeId
    {
      results := [];
      var rest := ServiceOwners(doc);
      while rest != {}
        invariant rest <= ServiceOwners(doc)
        invariant forall e :: e in results <==>
          e.nodeId in ServiceOwners(doc) - rest && Offers(doc, rule, e.nodeId, name)
          && e == OfferedAt(doc, rule, e.nodeId, name)
        invariant forall i, j :: 0 <= i < j < |results| ==> results[i].nodeId != results[j].nodeId
        decreases rest
      {
        var nid :| nid in rest;
        rest := rest - {nid};
        var entry := ServiceEntry(doc, rule, nid, name);
        if entry.Some? {
          var port := if entry.value.port.Some? then entry.value.port.value else 0;
          var node := NodeEntry(doc, rule, nid);
          if node.Some? && node.value.addr.Some? {
            assert forall e :: e in results ==> e.nodeId != nid;
            results := results + [Endpoint(nid, node.value.addr.value, port, entry.value.metadata)];
          }
        }
      }
    }

    /** Reports each difference between two member maps once: first who joined, then who left. */
    static method DiffMembers(before: map<NodeId, string>, after: map<NodeId, string>)
      returns (changes: seq<MembershipChange>)
      ensures IsDiff(before, after, changes)
    {
      changes := [];
      var rest := after.Keys;
      while rest != {}
        invariant rest <= after.Keys
        invariant forall c :: c in changes <==>
          c.nodeId in after.Keys - rest && c.nodeId !in before && c == Joined(after, c.nodeId)
        invariant forall i, j :: 0 <= i < j < |changes| ==> changes[i] != changes[j]
        decreases rest
      {
        var id :| id in rest;
        if id !in before {
          assert forall c :: c in changes ==> c.nodeId != id;
          changes := changes + [MembershipChange(NodeJoined, id, after[id])];
        }
        rest := rest - {id};
      }
      rest := before.Keys;
      while rest != {}
        invariant rest <= before.Keys
        invariant forall c :: c in changes <==>
          || (c.nodeId in after && c.nodeId !in before && c == Joined(after, c.nodeId))
          || (c.nodeId in before.Keys - rest && c.nodeId !in after && c == Left(before, c.nodeId))
        invariant forall i, j :: 0 <= i < j < |changes| ==> changes[i] != changes[j]
        decreases rest
      {
        var id :| id in rest;
        if id !in after {
          assert forall c :: c in changes ==> c.nodeId != id;
          changes := changes + [MembershipChange(NodeLeft, id, before[id])];
        }
        rest := rest - {id};
      }
    }

    /** Merges a received delta and reports what it did to the member ids; `None` is bytes that do not decode. */
    method MergeRemote(decoded: Option<Delta>) returns (changes: Option<seq<MembershipChange>>)
      modifies this
      ensures decoded.None? ==> changes.None? && doc == old(doc)
      ensures decoded.Some? ==>
        && changes.Some? && doc == MergeDelta(old(doc), decoded.value)
        && IsDiff(MemberIds(old(doc), rule), MemberIds(doc, rule), changes.value)
      ensures old(Sound()) && (decoded.Some? ==> ValidDelta(decoded.value)) ==> Sound()
    {
      var before := MemberIds(doc, rule);
      if decoded.None? {
        return None;
      }
      if ValidDoc(doc) && ValidDelta(decoded.value) {
        MergeDeltaValid(doc, decoded.value);
      }
      doc := MergeDelta(doc, decoded.value);
      var after := MemberIds(doc, rule);
      var diff := DiffMembers(before, after);
      changes := Some(diff);
    }

    function DeltaForPeer(peerVv: VersionVector): Delta
      reads this
    {
      DeltaSince(doc, peerVv)
    }

    function FullDelta(): Delta
      reads this
    {
      DeltaForPeer(EMPTY)
    }
  }
}
