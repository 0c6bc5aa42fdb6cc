/** Services, from the command that registers one to every node that finds it. */
module Services {
  import opened Causality
  import opened Document
  import opened Membership
  import opened Replication
  import opened Daemon
  import opened Sessions
  import opened Cluster
  import opened ClusterInvariant
  import opened Tombstones
  import opened Convergence
  import opened Effects
  import P = Provenance

  // -- Finding a service ----------------------------------------------------------------------------

  /** Node `n` is listed with the service `name`, and `e` says where. */
  ghost predicate Offered(doc: Doc, rule: Rule, name: string, e: Endpoint) {
    && e.nodeId in MemberIds(doc, rule) && e.addr == MemberIds(doc, rule)[e.nodeId]
    && var services := NodeServices(doc, rule, e.nodeId);
    name in services && e.port == services[name].port && e.metadata == services[name].metadata
  }

  /** In every run a lookup finds exactly the endpoints of the listed nodes that show the service. */
  lemma FoundIff(rule: Rule, ws: seq<World>, acts: seq<Action>, i: nat, b: NodeId, name: string, e: Endpoint)
    requires Lawful(rule) && IsRun(rule, ws, acts) && i < |ws| && b in ws[i].nodes
    ensures e in Lookup(DocOf(ws[i], b), rule, name) <==> Offered(DocOf(ws[i], b), rule, name, e)
  {
    var doc := DocOf(ws[i], b);
    LookupAgrees(rule, ws, acts, i, b, name);
    MembersAreMemberIds(rule, ws, acts, i, b);
    ScannedIff(doc, rule, name, e);
  }

  lemma ScannedIff(doc: Doc, rule: Rule, name: string, e: Endpoint)
    requires Members(doc, rule).Keys == MemberIds(doc, rule).Keys
    ensures e in ScanMembers(doc, rule, name) <==> Offered(doc, rule, name, e)
  {
    var ms := Members(doc, rule);
    assert e.nodeId in ms <==> e.nodeId in ms.Keys;
    assert e.nodeId in MemberIds(doc, rule) <==> e.nodeId in MemberIds(doc, rule).Keys;
  }

  // -- Registering and unregistering ------------------------------------------------------------------

  /** What a registration shows, and everything it does not touch. */
  lemma ServiceAdded(rule: Rule, ws: seq<World>, acts: seq<Action>, i: nat, a: NodeId,
                     name: string, port: Port, metadata: map<string, string>)
    requires Lawful(rule) && IsRun(rule, ws, acts) && i < |acts|
    requires acts[i] == Local(a, AddService(name, port, metadata))
    ensures a in ws[i].nodes && a in ws[i + 1].nodes
    ensures var doc, after := DocOf(ws[i], a), DocOf(ws[i + 1], a);
      && NodeServices(after, rule, a) == NodeServices(doc, rule, a)[name := ServiceInfo(name, port, metadata)]
      && OnlyServices(doc, after, rule, a)
      && forall e :: e in Lookup(after, rule, name) <==>
           if e.nodeId == a then
             a in MemberIds(doc, rule) && e == Endpoint(a, MemberIds(doc, rule)[a], port, metadata)
           else e in Lookup(doc, rule, name)
  {
    var doc, after := DocOfActor(rule, ws, acts, i, a);
    forall e
      ensures e in Lookup(after, rule, name) <==>
        if e.nodeId == a then a in MemberIds(doc, rule) && e == Endpoint(a, MemberIds(doc, rule)[a], port, metadata)
        else e in Lookup(doc, rule, name)
    {
      FoundIff(rule, ws, acts, i, a, name, e);
      FoundIff(rule, ws, acts, i + 1, a, name, e);
    }
  }

  lemma ServiceDropped(rule: Rule, ws: seq<World>, acts: seq<Action>, i: nat, a: NodeId, name: string)
    requires Lawful(rule) && IsRun(rule, ws, acts) && i < |acts| && acts[i] == Local(a, DropService(name))
    ensures a in ws[i].nodes && a in ws[i + 1].nodes
    ensures var doc, after := DocOf(ws[i], a), DocOf(ws[i + 1], a);
      && NodeServices(after, rule, a) == NodeServices(doc, rule, a) - {name}
      && OnlyServices(doc, after, rule, a)
      && forall e :: e in Lookup(after, rule, name) <==> e.nodeId != a && e in Lookup(doc, rule, name)
  {
    var doc, after := DocOfActor(rule, ws, acts, i, a);
    forall e ensures e in Lookup(after, rule, name) <==> e.nodeId != a && e in Lookup(doc, rule, name) {
      FoundIff(rule, ws, acts, i, a, name, e);
      FoundIff(rule, ws, acts, i + 1, a, name, e);
    }
  }

  lemma DocOfActor(rule: Rule, ws: seq<World>, acts: seq<Action>, i: nat, a: NodeId) returns (doc: Doc, after: Doc)
    requires Lawful(rule) && IsRun(rule, ws, acts) && i < |acts| && acts[i].Local? && acts[i].a == a
    requires acts[i].step.AddService? || acts[i].step.DropService?
    ensures a in ws[i].nodes && a in ws[i + 1].nodes && doc == DocOf(ws[i], a) && after == DocOf(ws[i + 1], a)
    ensures doc.replica == a && StepDoc(ws[i].nodes[a], rule, acts[i].step, after)
  {
    assert Enabled(ws[i], rule, acts[i]);
    P.NodeStays(ws[i], rule, acts[i], a);
    doc, after := DocOf(ws[i], a), DocOf(ws[i + 1], a);
    ActionEffect(rule, ws, acts, i, a);
    assert doc.replica == a by {
      RunInv(rule, ws, acts, i);
      assert DocsOf(ws[i])[a] == doc;
    }
  }

  // -- Reaching everybody ---------------------------------------------------------------------------

  /** A document that lists a node holds no service tombstone of it, so the services' writes are the node's own. */
  lemma OwnServiceWrite(history: set<Write>, doc: Doc, rule: Rule, a: NodeId, v: Write)
    requires AllShaped(history) && Exact(history, doc) && Lawful(rule) && a in MemberIds(doc, rule)
    requires v in doc.writes && v.path.ServicePath? && v.path.owner == a
    ensures v.dot.replica == a
  {
    assert Shaped(history, v);
    if !IsOwnService(v, a) {
      DeadServiceDeadNode(doc, history, v, a);
      var u :| u in doc.writes && FinalTombstone(u, a);
      FinalMeansUnlisted(doc, history, rule, u, a);
    }
  }

  lemma OwnWriteHeld(w: World, a: NodeId, c: NodeId, v: Write)
    requires Replicated(w) && a in w.nodes && c in w.nodes && v in DocOf(w, c).writes && v.dot.replica == a
    ensures v in DocOf(w, a).writes
  {
    assert DocsOf(w)[a] == DocOf(w, a) && DocsOf(w)[c] == DocOf(w, c);
    assert Exact(w.history, DocOf(w, a)) && Exact(w.history, DocOf(w, c));
    assert Behind(DocOf(w, c).vv, DocsOf(w));
    assert At(DocOf(w, c).vv, a) <= At(DocOf(w, a).vv, a);
  }

  lemma SameServiceWrite(rule: Rule, ws: seq<World>, acts: seq<Action>, i: nat, j: nat, group: set<NodeId>,
                         a: NodeId, b: NodeId, v: Write)
    requires LeftAlone(rule, ws, acts, i, j, group) && a in group && b in group && b in ws[j].nodes
    requires a in MemberIds(DocOf(ws[j], b), rule) && v.path.ServicePath? && v.path.owner == a
    ensures v in DocOf(ws[j], b).writes <==> v in DocOf(ws[i], a).writes
  {
    AgreesOnUnion(rule, ws, acts, i, j, group, b, v);
    if v in DocOf(ws[j], b).writes {
      assert AllShaped(ws[j].history) && Exact(ws[j].history, DocOf(ws[j], b)) by {
        RunInv(rule, ws, acts, j);
        RunShaped(rule, ws, acts, j);
        assert DocsOf(ws[j])[b] == DocOf(ws[j], b);
      }
      OwnServiceWrite(ws[j].history, DocOf(ws[j], b), rule, a, v);
      var c :| c in group && v in DocOf(ws[i], c).writes;
      assert Replicated(ws[i]) by {
        RunInv(rule, ws, acts, i);
      }
      OwnWriteHeld(ws[i], a, c, v);
    }
  }

  lemma SameWritesSameEntry(x: Doc, y: Doc, rule: Rule, path: Path)
    requires forall v: Write :: v.path == path ==> (v in x.writes <==> v in y.writes)
    ensures Entry(x, rule, path) == Entry(y, rule, path)
  {
    assert Candidates(x, path) == Candidates(y, path);
  }

  /**
   In a group left alone, whoever lists a member in the end shows exactly the services that this member itself
   showed at the start.
   */
  lemma ServicesSpread(rule: Rule, ws: seq<World>, acts: seq<Action>, i: nat, j: nat, group: set<NodeId>,
                       a: NodeId, b: NodeId)
    requires LeftAlone(rule, ws, acts, i, j, group) && a in group && b in group
    ensures b in ws[j].nodes
    ensures a in MemberIds(DocOf(ws[j], b), rule) ==>
      NodeServices(DocOf(ws[j], b), rule, a) == NodeServices(DocOf(ws[i], a), rule, a)
  {
    GroupStays(rule, ws, acts, i, j, group);
    var x, y := DocOf(ws[i], a), DocOf(ws[j], b);
    if a in MemberIds(y, rule) {
      forall name ensures ServiceEntry(y, rule, a, name) == ServiceEntry(x, rule, a, name) {
        forall v: Write | v.path == ServicePath(a, name) ensures v in y.writes <==> v in x.writes {
          SameServiceWrite(rule, ws, acts, i, j, group, a, b, v);
        }
        SameWritesSameEntry(y, x, rule, ServicePath(a, name));
      }
      SameServices(x, y, rule, a);
    }
  }

  /**
   From the command to the lookup: after a member of a group registers a service and the group is then left alone, a
   lookup at any member finds, for this node, exactly the registered port and metadata under the node's address, if
   and only if the node is listed there.
   */
  lemma RegistrationSpreads(rule: Rule, ws: seq<World>, acts: seq<Action>, i: nat, j: nat, group: set<NodeId>,
                            a: NodeId, b: NodeId, name: string, port: Port, metadata: map<string, string>, e: Endpoint)
    requires i < |acts| < |ws| && acts[i] == Local(a, AddService(name, port, metadata))
    requires LeftAlone(rule, ws, acts, i + 1, j, group) && a in group && b in group && e.nodeId == a
    ensures b in ws[j].nodes
    ensures e in Lookup(DocOf(ws[j], b), rule, name)
      <==> a in MemberIds(DocOf(ws[j], b), rule)
           && e == Endpoint(a, MemberIds(DocOf(ws[j], b), rule)[a], port, metadata)
  {
    ServiceAdded(rule, ws, acts, i, a, name, port, metadata);
    ServicesSpread(rule, ws, acts, i + 1, j, group, a, b);
    FoundIff(rule, ws, acts, j, b, name, e);
  }

  /** And after it unregisters one, nobody in the group finds it at this node any more. */
  lemma UnregistrationSpreads(rule: Rule, ws: seq<World>, acts: seq<Action>, i: nat, j: nat, group: set<NodeId>,
                              a: NodeId, b: NodeId, name: string, e: Endpoint)
    requires i < |acts| < |ws| && acts[i] == Local(a, DropService(name))
    requires LeftAlone(rule, ws, acts, i + 1, j, group) && a in group && b in group && e.nodeId == a
    ensures b in ws[j].nodes && e !in Lookup(DocOf(ws[j], b), rule, name)
  {
    ServiceDropped(rule, ws, acts, i, a, name);
    ServicesSpread(rule, ws, acts, i + 1, j, group, a, b);
    FoundIff(rule, ws, acts, j, b, name, e);
  }
}
