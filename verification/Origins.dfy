/** Who a document can show: members as they started, services as they were registered, and nothing else. */
module Origins {
  import opened Causality
  import opened Document
  import opened Membership
  import opened Replication
  import opened Daemon
  import opened Sessions
  import opened Cluster
  import opened ClusterInvariant
  import opened Guarantees
  import opened Tombstones
  import opened Effects
  import P = Provenance

  /** Node `n` was started with this address, metadata and time. */
  ghost predicate StartedAs(acts: seq<Action>, i: nat, n: NodeId, addr: string, metadata: map<string, string>,
                            now: nat)
  {
    exists k :: 0 <= k < i && k < |acts| && acts[k] == Start(n, addr, metadata, now)
  }

  ghost predicate StartedAt(acts: seq<Action>, i: nat, n: NodeId, addr: string) {
    exists k :: 0 <= k < i && k < |acts| && acts[k].Start? && acts[k].id == n && acts[k].addr == addr
  }

  /** Node `n` registered the service with this port and metadata. */
  ghost predicate RegisteredAs(acts: seq<Action>, i: nat, n: NodeId, name: string, port: Port,
                               metadata: map<string, string>)
  {
    exists k :: 0 <= k < i && k < |acts| && acts[k] == Local(n, AddService(name, port, metadata))
  }

  /** A write that shows a node or a service repeats what the node was started with or registered. */
  ghost predicate Sourced(acts: seq<Action>, i: nat, v: Write) {
    match v.path
    case NodePath(n) =>
      v.op.Set? && v.op.record.addr.Some? ==>
        && v.op.record.status.None? && v.op.record.joinedAt.Some?
        && StartedAs(acts, i, n, v.op.record.addr.value, v.op.record.metadata, v.op.record.joinedAt.value)
    case ServicePath(n, name) =>
      v.op.Set? && v.op.record.port.Some? ==>
        RegisteredAs(acts, i, n, name, v.op.record.port.value, v.op.record.metadata)
  }

  lemma SourcedLater(acts: seq<Action>, i: nat, v: Write)
    requires Sourced(acts, i, v)
    ensures Sourced(acts, i + 1, v)
  {
  }

  /** What a step writes is a tombstone, a removal, or the service that it registers. */
  lemma StepWrites(node: Node, rule: Rule, step: Step, v: Write)
    requires Can(node, rule, step) && v in Do(node, rule, step).shared.doc.writes
    ensures
      || v in node.shared.doc.writes || (step.Merge? && v in step.delta.writes)
      || v.op == Set(DEAD) || v.op == Remove
      || (step.AddService? && v.path == ServicePath(node.shared.doc.replica, step.name) && v.op.Set?
          && v.op.record.port == Some(step.port) && v.op.record.metadata == step.metadata)
  {
    var doc := node.shared.doc;
    if step.Finish? {
      var n := node.tasks[step.task].remote;
      TombstonedWrites(TombstoneNode(doc, n), n, step.names, v);
    } else if step.Stop? {
      TombstonedWrites(TombstoneNode(doc, doc.replica), doc.replica, step.names, v);
    }
  }

  lemma ActorSourced(rule: Rule, ws: seq<World>, acts: seq<Action>, i: nat, v: Write)
    requires Lawful(rule) && IsRun(rule, ws, acts) && i < |acts| && HasStep(acts[i])
    requires forall u :: u in ws[i].history ==> Sourced(acts, i, u)
    requires v in ws[i + 1].history
    ensures Sourced(acts, i + 1, v)
  {
    var w, act := ws[i], acts[i];
    assert Enabled(w, rule, act);
    var a := Actor(w, act);
    ActionDocs(w, rule, act);
    assert v in w.history || v in Do(w.nodes[a], rule, StepOf(w, act)).shared.doc.writes;
    if v in w.history {
      SourcedLater(acts, i, v);
    } else {
      StepWrites(w.nodes[a], rule, StepOf(w, act), v);
      OnlyOwnWrites(rule, ws, acts, i);
      StepOfAction(w, act);
    }
  }

  lemma OnlyOwnWrites(rule: Rule, ws: seq<World>, acts: seq<Action>, i: nat)
    requires Lawful(rule) && IsRun(rule, ws, acts) && i < |acts| && Enabled(ws[i], rule, acts[i]) && HasStep(acts[i])
    ensures var a := Actor(ws[i], acts[i]);
      && DocOf(ws[i], a).replica == a && DocOf(ws[i], a).writes <= ws[i].history
      && (StepOf(ws[i], acts[i]).Merge? ==> StepOf(ws[i], acts[i]).delta.writes <= ws[i].history)
  {
    var a := Actor(ws[i], acts[i]);
    RunInv(rule, ws, acts, i);
    ActionInput(ws[i], rule, acts[i]);
    assert DocsOf(ws[i])[a] == DocOf(ws[i], a);
  }

  lemma OtherSourced(w: World, rule: Rule, acts: seq<Action>, i: nat, v: Write)
    requires i < |acts| && Enabled(w, rule, acts[i]) && !HasStep(acts[i])
    requires forall u :: u in w.history ==> Sourced(acts, i, u)
    requires v in Apply(w, rule, acts[i]).history
    ensures Sourced(acts, i + 1, v)
  {
    if v in w.history {
      SourcedLater(acts, i, v);
    }
  }

  lemma {:induction false} AllSourced(rule: Rule, ws: seq<World>, acts: seq<Action>, i: nat)
    requires Lawful(rule) && IsRun(rule, ws, acts) && i <= |acts|
    ensures forall v :: v in ws[i].history ==> Sourced(acts, i, v)
    decreases i
  {
    if i > 0 {
      AllSourced(rule, ws, acts, i - 1);
      assert Enabled(ws[i - 1], rule, acts[i - 1]);
      forall v | v in ws[i].history ensures Sourced(acts, i, v) {
        if HasStep(acts[i - 1]) {
          ActorSourced(rule, ws, acts, i - 1, v);
        } else {
          OtherSourced(ws[i - 1], rule, acts, i - 1, v);
        }
      }
    }
  }

  lemma ShownBy(rule: Rule, ws: seq<World>, acts: seq<Action>, i: nat, b: NodeId, path: Path)
    returns (v: Write)
    requires Lawful(rule) && IsRun(rule, ws, acts) && i <= |acts| && b in ws[i].nodes
    requires Entry(DocOf(ws[i], b), rule, path).Some?
    ensures v.path == path && v.op == Set(Entry(DocOf(ws[i], b), rule, path).value) && Sourced(acts, i, v)
  {
    EntryHasWrite(DocOf(ws[i], b), rule, path);
    v :| v in Candidates(DocOf(ws[i], b), path) && v.op == Set(Entry(DocOf(ws[i], b), rule, path).value);
    assert DocOf(ws[i], b).writes <= ws[i].history by {
      RunInv(rule, ws, acts, i);
      ActorWrites(ws[i], b);
    }
    AllSourced(rule, ws, acts, i);
  }

  /** In every run a document shows a member with the address, metadata and time that the node was started with. */
  lemma MembersAsStarted(rule: Rule, ws: seq<World>, acts: seq<Action>, i: nat, b: NodeId, n: NodeId)
    requires Lawful(rule) && IsRun(rule, ws, acts) && i <= |acts| && b in ws[i].nodes
    requires n in Members(DocOf(ws[i], b), rule)
    ensures var info := Members(DocOf(ws[i], b), rule)[n];
      info.nodeId == n && StartedAs(acts, i, n, info.addr, info.metadata, info.joinedAt)
  {
    var v := ShownBy(rule, ws, acts, i, b, NodePath(n));
  }

  lemma MemberIdsAsStarted(rule: Rule, ws: seq<World>, acts: seq<Action>, i: nat, b: NodeId, n: NodeId)
    requires Lawful(rule) && IsRun(rule, ws, acts) && i <= |acts| && b in ws[i].nodes
    requires n in MemberIds(DocOf(ws[i], b), rule)
    ensures StartedAt(acts, i, n, MemberIds(DocOf(ws[i], b), rule)[n])
  {
    var v := ShownBy(rule, ws, acts, i, b, NodePath(n));
    var r := v.op.record;
    var k :| 0 <= k < i && k < |acts| && acts[k] == Start(n, r.addr.value, r.metadata, r.joinedAt.value);
    assert acts[k].addr == r.addr.value;
  }

  /** In every run a document shows a service with a port and metadata that its own node registered it with. */
  lemma ServicesAsRegistered(rule: Rule, ws: seq<World>, acts: seq<Action>, i: nat, b: NodeId, n: NodeId, name: string)
    requires Lawful(rule) && IsRun(rule, ws, acts) && i <= |acts| && b in ws[i].nodes
    requires name in NodeServices(DocOf(ws[i], b), rule, n)
    ensures var s := NodeServices(DocOf(ws[i], b), rule, n)[name];
      s.name == name && RegisteredAs(acts, i, n, name, s.port, s.metadata)
  {
    var v := ShownBy(rule, ws, acts, i, b, ServicePath(n, name));
  }

  // -- One address per node -----------------------------------------------------------------------

  lemma {:induction false} NodeInRun(rule: Rule, ws: seq<World>, acts: seq<Action>, d: nat, i: nat, n: NodeId)
    requires IsRun(rule, ws, acts) && d <= i < |ws| && n in ws[d].nodes
    ensures n in ws[i].nodes
    decreases i
  {
    if d < i {
      NodeInRun(rule, ws, acts, d, i - 1, n);
      assert Enabled(ws[i - 1], rule, acts[i - 1]);
      P.NodeStays(ws[i - 1], rule, acts[i - 1], n);
    }
  }

  lemma StartedOnce(rule: Rule, ws: seq<World>, acts: seq<Action>, d: nat, e: nat)
    requires IsRun(rule, ws, acts) && d <= e < |acts| && acts[d].Start? && acts[e].Start? && acts[d].id == acts[e].id
    ensures d == e
  {
    assert Enabled(ws[d], rule, acts[d]) && Enabled(ws[e], rule, acts[e]);
    StartIsNew(ws[d], rule, acts[d]);
    if d < e {
      NodeInRun(rule, ws, acts, d + 1, e, acts[d].id);
    }
  }

  lemma OneAddress(rule: Rule, ws: seq<World>, acts: seq<Action>, i: nat, j: nat, n: NodeId, x: string, y: string)
    requires IsRun(rule, ws, acts) && i <= |acts| && j <= |acts| && StartedAt(acts, i, n, x) && StartedAt(acts, j, n, y)
    ensures x == y
  {
    var d :| 0 <= d < i && acts[d].Start? && acts[d].id == n && acts[d].addr == x;
    var e :| 0 <= e < j && acts[e].Start? && acts[e].id == n && acts[e].addr == y;
    if d <= e {
      StartedOnce(rule, ws, acts, d, e);
    } else {
      StartedOnce(rule, ws, acts, e, d);
    }
  }

  // -- The addresses of events --------------------------------------------------------------------

  /** The address of an event is one of its node: where it was started, or what it announced to a session. */
  ghost predicate TrueEvent(ws: seq<World>, acts: seq<Action>, i: nat, c: MembershipChange)
    requires i <= |acts| < |ws|
  {
    || StartedAt(acts, i, c.nodeId, c.addr)
    || (c.event.NodeLeft? && exists u :: P.Introduced(ws, acts, i, u, c.nodeId, c.addr))
  }

  lemma TrueEventLater(ws: seq<World>, acts: seq<Action>, i: nat, c: MembershipChange)
    requires i < |acts| < |ws| && TrueEvent(ws, acts, i, c)
    ensures TrueEvent(ws, acts, i + 1, c)
  {
    if !StartedAt(acts, i, c.nodeId, c.addr) {
      var u :| P.Introduced(ws, acts, i, u, c.nodeId, c.addr);
      P.IntroducedLater(ws, acts, i, u, c.nodeId, c.addr);
    }
  }

  lemma NewsTrue(rule: Rule, ws: seq<World>, acts: seq<Action>, i: nat, a: NodeId, c: MembershipChange)
    requires Lawful(rule) && IsRun(rule, ws, acts) && i < |acts| && Shapely(ws[i], acts[i]) && HasStep(acts[i])
    requires Actor(ws[i], acts[i]) == a && a in ws[i].nodes && a in ws[i + 1].nodes
    requires Can(ws[i].nodes[a], rule, StepOf(ws[i], acts[i]))
    requires ws[i + 1].nodes[a] == Do(ws[i].nodes[a], rule, StepOf(ws[i], acts[i]))
    requires EventsAt(ws[i], a) <= EventsAt(ws[i + 1], a) && c in EventsAt(ws[i + 1], a)[|EventsAt(ws[i], a)|..]
    ensures TrueEvent(ws, acts, i + 1, c)
  {
    var node, step := ws[i].nodes[a], StepOf(ws[i], acts[i]);
    NewsOfStep(node, rule, step);
    if step.Finish? {
      P.SessionIntroduced(rule, ws, acts, i, a, step.task);
      P.IntroducedLater(ws, acts, i, step.task, c.nodeId, c.addr);
    } else if step.Merge? {
      assert DocOf(ws[i + 1], a) == MergeDelta(node.shared.doc, step.delta);
      assert c == MembershipChange(c.event, c.nodeId, c.addr);
      if c.event.NodeJoined? {
        MemberIdsAsStarted(rule, ws, acts, i + 1, a, c.nodeId);
      } else {
        MemberIdsAsStarted(rule, ws, acts, i, a, c.nodeId);
      }
    }
  }

  /**
   In every run an event carries an address of its node: a node that joined the one it was started with, a node that
   left that one or the one it announced to the session that ended.
   */
  lemma {:induction false} EventsTrue(rule: Rule, ws: seq<World>, acts: seq<Action>, i: nat, a: NodeId,
                                      c: MembershipChange)
    requires Lawful(rule) && IsRun(rule, ws, acts) && i <= |acts| && a in ws[i].nodes && c in EventsAt(ws[i], a)
    ensures TrueEvent(ws, acts, i, c)
    decreases i
  {
    if i > 0 {
      if a in ws[i - 1].nodes && c in EventsAt(ws[i - 1], a) {
        EventsTrue(rule, ws, acts, i - 1, a, c);
        TrueEventLater(ws, acts, i - 1, c);
      } else {
        NewEventTrue(rule, ws, acts, i - 1, a, c);
      }
    }
  }

  lemma NewEventTrue(rule: Rule, ws: seq<World>, acts: seq<Action>, i: nat, a: NodeId, c: MembershipChange)
    requires Lawful(rule) && IsRun(rule, ws, acts) && i < |acts| && a in ws[i + 1].nodes
    requires c in EventsAt(ws[i + 1], a) && !(a in ws[i].nodes && c in EventsAt(ws[i], a))
    ensures TrueEvent(ws, acts, i + 1, c)
  {
    assert Enabled(ws[i], rule, acts[i]);
    if HasStep(acts[i]) && Actor(ws[i], acts[i]) == a {
      ActorNewsTrue(rule, ws, acts, i, a, c);
    } else {
      NoNews(ws[i], rule, acts[i], a);
    }
  }

  lemma ActorNewsTrue(rule: Rule, ws: seq<World>, acts: seq<Action>, i: nat, a: NodeId, c: MembershipChange)
    requires Lawful(rule) && IsRun(rule, ws, acts) && i < |acts| && Enabled(ws[i], rule, acts[i]) && HasStep(acts[i])
    requires Actor(ws[i], acts[i]) == a && a in ws[i + 1].nodes
    requires c in EventsAt(ws[i + 1], a) && c !in EventsAt(ws[i], a)
    ensures TrueEvent(ws, acts, i + 1, c)
  {
    StepActionMovesOne(ws[i], rule, acts[i]);
    NewsOfStep(ws[i].nodes[a], rule, StepOf(ws[i], acts[i]));
    var e, e' := EventsAt(ws[i], a), EventsAt(ws[i + 1], a);
    assert e' == e + e'[|e|..];
    NewsTrue(rule, ws, acts, i, a, c);
  }

  lemma NoNews(w: World, rule: Rule, act: Action, a: NodeId)
    requires Enabled(w, rule, act) && a in Apply(w, rule, act).nodes && !(HasStep(act) && Actor(w, act) == a)
    ensures EventsAt(Apply(w, rule, act), a) == if a in w.nodes then EventsAt(w, a) else []
  {
  }

  /** A subscriber that is told of a node's joining is told the address that every member list ever shows for it. */
  lemma JoinedAddress(rule: Rule, ws: seq<World>, acts: seq<Action>, i: nat, a: NodeId, c: MembershipChange,
                      j: nat, b: NodeId)
    requires Lawful(rule) && IsRun(rule, ws, acts) && i <= |acts| && j <= |acts|
    requires a in ws[i].nodes && c in EventsAt(ws[i], a) && c.event.NodeJoined?
    requires b in ws[j].nodes && c.nodeId in MemberIds(DocOf(ws[j], b), rule)
    ensures MemberIds(DocOf(ws[j], b), rule)[c.nodeId] == c.addr
  {
    EventsTrue(rule, ws, acts, i, a, c);
    MemberIdsAsStarted(rule, ws, acts, j, b, c.nodeId);
    OneAddress(rule, ws, acts, i, j, c.nodeId, c.addr, MemberIds(DocOf(ws[j], b), rule)[c.nodeId]);
  }
}
