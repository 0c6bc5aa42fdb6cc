/** Simultaneous dials: when a connection cannot be concluded, and how both of two can be lost. */
module CrossedDials {
  import opened Causality
  import opened Document
  import opened Membership
  import opened Replication
  import opened Daemon
  import opened Sessions
  import opened Cluster
  import opened ClusterInvariant
  import opened Delivery
  import opened Tombstones
  import opened SyncRound
  import opened Encounters

  /**
   A waiting acknowledgement can be concluded if and only if the initiator has no session under that task and no
   handle for the peer; a waiting handshake, correspondingly, can be answered.
   */
  lemma RegistersIff(w: World, rule: Rule, t: TaskId)
    requires Waiting(w, t)
    ensures var node, m := w.nodes[Owner(w, t)], w.wires[t][0];
      && (t.initiator && m.HandshakeAck? ==>
            (Enabled(w, rule, Conclude(t)) <==> t !in node.tasks && m.nodeId !in node.shared.peers))
      && (!t.initiator && m.Handshake? ==>
            (Enabled(w, rule, Answer(t)) <==> t !in node.tasks && m.nodeId !in node.shared.peers))
  {
  }

  // -- A connection that is lost ------------------------------------------------------------------

  /** The initiator has no session on the connection, and no acknowledgement will ever reach it. */
  ghost predicate Dropped(w: World, conn: nat) {
    var t, u := TaskId(conn, true), TaskId(conn, false);
    && conn in w.ends && t in w.wires && Owner(w, t) in w.nodes && Owner(w, u) in w.nodes
    && t !in w.nodes[Owner(w, t)].tasks
    && (forall x :: 0 <= x < |w.wires[t]| ==> !w.wires[t][x].HandshakeAck?)
    && u in w.nodes[Owner(w, u)].tasks && !w.nodes[Owner(w, u)].tasks[u].phase.Acking?
  }

  /** And the responder's session is over and cleaned up. */
  ghost predicate Lost(w: World, conn: nat) {
    Dropped(w, conn) && w.nodes[w.ends[conn].responder].tasks[TaskId(conn, false)].phase.Cleaned?
  }

  lemma TaskAfter(node: Node, rule: Rule, step: Step, u: TaskId)
    requires Can(node, rule, step) && u in node.tasks
    ensures u in Do(node, rule, step).tasks
    ensures !node.tasks[u].phase.Acking? ==> !Do(node, rule, step).tasks[u].phase.Acking?
    ensures node.tasks[u].phase.Cleaned? ==> Do(node, rule, step).tasks[u].phase.Cleaned?
  {
  }

  lemma NoTaskAfter(node: Node, rule: Rule, step: Step, t: TaskId)
    requires Can(node, rule, step) && t !in node.tasks
    requires (step.Accept? || step.Adopt?) ==> step.task != t
    ensures t !in Do(node, rule, step).tasks
  {
  }

  lemma DroppedWire(w: World, rule: Rule, act: Action, conn: nat)
    requires Enabled(w, rule, act) && Dropped(w, conn)
    ensures var t, w' := TaskId(conn, true), Apply(w, rule, act);
      t in w'.wires && forall x :: 0 <= x < |w'.wires[t]| ==> !w'.wires[t][x].HandshakeAck?
  {
    WireStep(w, act, TaskId(conn, true));
    WiresOfApply(w, rule, act);
  }

  lemma DroppedTask(w: World, rule: Rule, act: Action, conn: nat)
    requires Enabled(w, rule, act) && Dropped(w, conn)
    ensures var t, w' := TaskId(conn, true), Apply(w, rule, act);
      && act != Conclude(t) && conn in w'.ends && w'.ends[conn] == w.ends[conn]
      && Owner(w, t) in w'.nodes && t !in w'.nodes[Owner(w, t)].tasks
  {
    OtherUnmoved(w, rule, act);
    if HasStep(act) && Actor(w, act) == Owner(w, TaskId(conn, true)) {
      StepActionMovesOne(w, rule, act);
      NoTaskAfter(w.nodes[Actor(w, act)], rule, StepOf(w, act), TaskId(conn, true));
    }
  }

  lemma ResponderTask(w: World, rule: Rule, act: Action, conn: nat)
    requires Enabled(w, rule, act) && Dropped(w, conn)
    ensures var u, w', b := TaskId(conn, false), Apply(w, rule, act), w.ends[conn].responder;
      && b in w'.nodes && u in w'.nodes[b].tasks && !w'.nodes[b].tasks[u].phase.Acking?
      && (w.nodes[b].tasks[u].phase.Cleaned? ==> w'.nodes[b].tasks[u].phase.Cleaned?)
  {
    OtherUnmoved(w, rule, act);
    if HasStep(act) && Actor(w, act) == w.ends[conn].responder {
      StepActionMovesOne(w, rule, act);
      TaskAfter(w.nodes[Actor(w, act)], rule, StepOf(w, act), TaskId(conn, false));
    }
  }

  /** A lost connection stays lost, whatever happens: no action concludes it or revives its responder's session. */
  lemma {:induction false} LostForGood(rule: Rule, ws: seq<World>, acts: seq<Action>, i: nat, j: nat, conn: nat)
    requires IsRun(rule, ws, acts) && i <= j < |ws| && Dropped(ws[i], conn)
    ensures Dropped(ws[j], conn) && (Lost(ws[i], conn) ==> Lost(ws[j], conn)) && ws[j].ends[conn] == ws[i].ends[conn]
    ensures forall k :: i <= k < j ==> acts[k] != Conclude(TaskId(conn, true))
    decreases j
  {
    if i < j {
      var w, act := ws[j - 1], acts[j - 1];
      LostForGood(rule, ws, acts, i, j - 1, conn);
      assert Enabled(w, rule, act);
      DroppedTask(w, rule, act, conn);
      DroppedWire(w, rule, act, conn);
      ResponderTask(w, rule, act, conn);
    }
  }

  // -- Crossed dials ------------------------------------------------------------------------------

  /** The responder of `conn` has registered the session and the handle, and its acknowledgement waits. */
  ghost predicate AckWaits(w: World, conn: nat, a: NodeId, b: NodeId) {
    var t, u := TaskId(conn, true), TaskId(conn, false);
    && conn in w.ends && w.ends[conn] == Ends(a, b) && a in w.nodes && b in w.nodes
    && u in w.wires && u in w.nodes[b].tasks && w.nodes[b].tasks[u].phase.Opening? && Owns(w.nodes[b], u)
    && w.nodes[b].tasks[u].remote == a && t !in w.nodes[a].tasks
    && t in w.wires && |w.wires[t]| == 1 && w.wires[t][0].HandshakeAck? && w.wires[t][0].nodeId == b
  }

  /** Both nodes have answered the other's dial, and neither has concluded its own. */
  ghost predicate Crossed(w: World, conn: nat, conn': nat, a: NodeId, b: NodeId) {
    AckWaits(w, conn, a, b) && AckWaits(w, conn', b, a)
  }

  lemma CrossedBlocks(w: World, rule: Rule, conn: nat, conn': nat, a: NodeId, b: NodeId)
    requires Crossed(w, conn, conn', a, b)
    ensures !Enabled(w, rule, Conclude(TaskId(conn, true))) && !Enabled(w, rule, Conclude(TaskId(conn', true)))
  {
    RegistersIff(w, rule, TaskId(conn, true));
    RegistersIff(w, rule, TaskId(conn', true));
  }

  lemma GreetedWaits(w: World, w': World, conn: nat, a: NodeId, b: NodeId)
    requires Wired(w) && conn !in w.ends && a in w.nodes && a != b && Greeted(w, w', conn, a, b)
    ensures AckWaits(w', conn, a, b)
  {
    FreshConnection(w, conn, a, TaskId(conn, true));
  }

  lemma GreetedKeepsWaiting(w: World, w': World, conn: nat, a: NodeId, b: NodeId, other: nat)
    requires Wired(w) && conn !in w.ends && Greeted(w, w', conn, a, b) && AckWaits(w, other, b, a) && a != b
    ensures AckWaits(w', other, b, a)
  {
  }

  /** Two nodes without handles for each other dial each other, and each answers before it reads the answer. */
  lemma Cross(rule: Rule, ws: seq<World>, acts: seq<Action>, conn: nat, conn': nat, a: NodeId, b: NodeId)
    returns (ws': seq<World>, acts': seq<Action>)
    requires Lawful(rule) && IsRun(rule, ws, acts) && Apart(ws[|acts|], a, b)
    requires conn !in ws[|acts|].ends && conn' !in ws[|acts|].ends && conn != conn'
    ensures IsRun(rule, ws', acts') && ws <= ws' && acts <= acts'
    ensures Crossed(ws'[|acts'|], conn, conn', a, b)
    ensures DocOf(ws'[|acts'|], a) == DocOf(ws[|acts|], a) && DocOf(ws'[|acts'|], b) == DocOf(ws[|acts|], b)
  {
    var ws1, acts1 := Greet(rule, ws, acts, conn, a, b);
    assert ws1[|acts1|].nodes[a] == ws[|acts|].nodes[a];
    ws', acts' := Greet(rule, ws1, acts1, conn', b, a);
    assert Wired(ws[|acts|]) && Wired(ws1[|acts1|]) by {
      RunInv(rule, ws, acts, |acts|);
      RunInv(rule, ws1, acts1, |acts1|);
    }
    GreetedWaits(ws[|acts|], ws1[|acts1|], conn, a, b);
    GreetedKeepsWaiting(ws1[|acts1|], ws'[|acts'|], conn', b, a, conn);
    GreetedWaits(ws1[|acts1|], ws'[|acts'|], conn', b, a);
  }

  lemma RefuseAck(w: World, rule: Rule, conn: nat, a: NodeId, b: NodeId)
    requires AckWaits(w, conn, a, b)
    ensures Enabled(w, rule, Refuse(TaskId(conn, true)))
    ensures var w' := Apply(w, rule, Refuse(TaskId(conn, true)));
      && w'.nodes == w.nodes && w'.ends == w.ends && w'.wires.Keys == w.wires.Keys && OtherWires(w, w', conn)
      && Dropped(w', conn) && InSession(w', TaskId(conn, false))
  {
  }

  /** Both acknowledgements come in and are turned down. */
  lemma TurnDown(rule: Rule, ws: seq<World>, acts: seq<Action>, conn: nat, conn': nat, a: NodeId, b: NodeId)
    returns (ws': seq<World>, acts': seq<Action>)
    requires IsRun(rule, ws, acts) && Crossed(ws[|acts|], conn, conn', a, b) && conn != conn'
    ensures IsRun(rule, ws', acts') && ws <= ws' && acts <= acts'
    ensures var w' := ws'[|acts'|];
      && w'.nodes == ws[|acts|].nodes && w'.ends == ws[|acts|].ends
      && Dropped(w', conn) && Dropped(w', conn')
      && InSession(w', TaskId(conn, false)) && InSession(w', TaskId(conn', false))
  {
    RefuseAck(ws[|acts|], rule, conn, a, b);
    var act, act' := Refuse(TaskId(conn, true)), Refuse(TaskId(conn', true));
    var ws1, acts1 := OneMore(rule, ws, acts, act, Apply(ws[|acts|], rule, act));
    RefuseAck(ws1[|acts1|], rule, conn', b, a);
    ws', acts' := OneMore(rule, ws1, acts1, act', Apply(ws1[|acts1|], rule, act'));
  }

  /** The responders' sessions end, and both connections are lost. */
  lemma EndBoth(rule: Rule, ws: seq<World>, acts: seq<Action>, conn: nat, conn': nat, a: NodeId, b: NodeId)
    returns (ws': seq<World>, acts': seq<Action>)
    requires Lawful(rule) && IsRun(rule, ws, acts) && a != b
    requires Dropped(ws[|acts|], conn) && ws[|acts|].ends[conn] == Ends(a, b)
    requires Dropped(ws[|acts|], conn') && ws[|acts|].ends[conn'] == Ends(b, a)
    requires InSession(ws[|acts|], TaskId(conn, false)) && InSession(ws[|acts|], TaskId(conn', false))
    ensures IsRun(rule, ws', acts') && ws <= ws' && acts <= acts'
    ensures Lost(ws'[|acts'|], conn) && Lost(ws'[|acts'|], conn') && Apart(ws'[|acts'|], a, b)
    ensures var w, w' := ws[|acts|], ws'[|acts'|];
      Removed(DocOf(w, a), DocOf(w', a), rule, b) && Removed(DocOf(w, b), DocOf(w', b), rule, a)
  {
    var ws1, acts1 := HangUp(rule, ws, acts, TaskId(conn, false));
    LostForGood(rule, ws1, acts1, |acts|, |acts1|, conn);
    LostForGood(rule, ws1, acts1, |acts|, |acts1|, conn');
    assert ws1[|acts1|].nodes[a] == ws[|acts|].nodes[a];
    ws', acts' := HangUp(rule, ws1, acts1, TaskId(conn', false));
    LostForGood(rule, ws', acts', |acts1|, |acts'|, conn);
    LostForGood(rule, ws', acts', |acts1|, |acts'|, conn');
    assert ws'[|acts'|].nodes[b] == ws1[|acts1|].nodes[b];
  }

  /**
   Simultaneous dials can cost both connections. From any reachable world where two nodes have no handles for each
   other the run can go on to a world (`i`) where each has registered the connection the other one dialled and
   can therefore not conclude its own; and from there to one where both connections are lost for good and each
   node has tombstoned the other.
   */
  lemma DialsCanCross(rule: Rule, ws: seq<World>, acts: seq<Action>, conn: nat, conn': nat, a: NodeId, b: NodeId)
    returns (ws': seq<World>, acts': seq<Action>, i: nat)
    requires Lawful(rule) && IsRun(rule, ws, acts) && Apart(ws[|acts|], a, b)
    requires conn !in ws[|acts|].ends && conn' !in ws[|acts|].ends && conn != conn'
    ensures IsRun(rule, ws', acts') && ws <= ws' && acts <= acts' && |acts| <= i <= |acts'|
    ensures Crossed(ws'[i], conn, conn', a, b)
    ensures !Enabled(ws'[i], rule, Conclude(TaskId(conn, true)))
    ensures !Enabled(ws'[i], rule, Conclude(TaskId(conn', true)))
    ensures Lost(ws'[|acts'|], conn) && Lost(ws'[|acts'|], conn') && Apart(ws'[|acts'|], a, b)
    ensures var w, w' := ws[|acts|], ws'[|acts'|];
      Removed(DocOf(w, a), DocOf(w', a), rule, b) && Removed(DocOf(w, b), DocOf(w', b), rule, a)
  {
    var ws1, acts1 := Cross(rule, ws, acts, conn, conn', a, b);
    i := |acts1|;
    CrossedBlocks(ws1[i], rule, conn, conn', a, b);
    var ws2, acts2 := TurnDown(rule, ws1, acts1, conn, conn', a, b);
    ws', acts' := EndBoth(rule, ws2, acts2, conn, conn', a, b);
    assert ws'[i] == ws2[i] == ws1[i];
  }
}
