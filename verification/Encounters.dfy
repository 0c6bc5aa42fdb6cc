/** How two nodes meet and part: runs that can be continued this way from any reachable world. */
module Encounters {
  import opened Causality
  import opened Document
  import opened Membership
  import opened Replication
  import opened Daemon
  import opened Sessions
  import opened Cluster
  import opened ClusterInvariant
  import opened Guarantees
  import opened Tombstones
  import opened SyncRound

  // -- Making a connection ------------------------------------------------------------------------

  /** Two nodes without handles for each other. */
  predicate Apart(w: World, a: NodeId, b: NodeId) {
    && a in w.nodes && b in w.nodes && a != b
    && b !in w.nodes[a].shared.peers && a !in w.nodes[b].shared.peers
  }

  lemma FreshConnection(w: World, conn: nat, a: NodeId, t: TaskId)
    requires Wired(w) && conn !in w.ends && t.conn == conn && a in w.nodes
    ensures t !in w.nodes[a].tasks
  {
    assert GoodNode(w, w.history, DocsOf(w), a, w.nodes[a]);
  }

  /** The wires of all other connections are as they were. */
  ghost predicate OtherWires(w: World, w': World, conn: nat) {
    forall u: TaskId :: u in w.wires && u.conn != conn ==> u in w'.wires && w'.wires[u] == w.wires[u]
  }

  /** Task `t` of node `b` has moved or come into being, and no other task, node or document has moved. */
  ghost predicate OneTask(w: World, w': World, b: NodeId, t: TaskId) {
    && b in w.nodes && b in w'.nodes && w'.nodes == w.nodes[b := w'.nodes[b]]
    && t in w'.nodes[b].tasks && w'.nodes[b].tasks == w.nodes[b].tasks[t := w'.nodes[b].tasks[t]]
    && DocOf(w', b) == DocOf(w, b)
  }

  lemma Dialled(w: World, rule: Rule, conn: nat, a: NodeId, b: NodeId)
    requires a in w.nodes && b in w.nodes && conn !in w.ends
    ensures Enabled(w, rule, Dial(conn, a, b, ""))
    ensures var w' := Apply(w, rule, Dial(conn, a, b, ""));
      && w'.nodes == w.nodes && w'.ends == w.ends[conn := Ends(a, b)] && OtherWires(w, w', conn)
      && TaskId(conn, true) in w'.wires && w'.wires[TaskId(conn, true)] == []
      && TaskId(conn, false) in w'.wires && w'.wires[TaskId(conn, false)] == [Handshake(a, "")]
  {
  }

  lemma Answered(w: World, rule: Rule, t: TaskId)
    requires Waiting(w, t) && !t.initiator && w.wires[t][0].Handshake? && Other(t) in w.wires
    requires var node := w.nodes[Owner(w, t)]; t !in node.tasks && w.wires[t][0].nodeId !in node.shared.peers
    ensures Enabled(w, rule, Answer(t))
    ensures var w', b := Apply(w, rule, Answer(t)), Owner(w, t);
      && w'.ends == w.ends && OneTask(w, w', b, t)
      && w'.wires.Keys == w.wires.Keys && OtherWires(w, w', t.conn) && w'.wires[Other(t)] == w.wires[Other(t)]
      && PhaseOf(w', t).Acking? && Owns(w'.nodes[b], t) && w'.nodes[b].tasks[t].remote == w.wires[t][0].nodeId
  {
  }

  lemma Acknowledged(w: World, rule: Rule, t: TaskId)
    requires Running(w, t) && PhaseOf(w, t).Acking? && w.wires[Other(t)] == []
    ensures Enabled(w, rule, SendAck(t, ""))
    ensures var w', b := Apply(w, rule, SendAck(t, "")), Owner(w, t);
      && w'.ends == w.ends && OneTask(w, w', b, t)
      && w'.wires.Keys == w.wires.Keys && OtherWires(w, w', t.conn)
      && PhaseOf(w', t).Opening? && (Owns(w.nodes[b], t) ==> Owns(w'.nodes[b], t))
      && w'.wires[Other(t)] == [HandshakeAck(b, "", PhaseOf(w, t).vv)]
  {
  }

  lemma Concluded(w: World, rule: Rule, t: TaskId)
    requires Waiting(w, t) && t.initiator && w.wires[t][0].HandshakeAck? && Other(t) in w.wires
    requires var node := w.nodes[Owner(w, t)]; t !in node.tasks && w.wires[t][0].nodeId !in node.shared.peers
    ensures Enabled(w, rule, Conclude(t))
    ensures var w', a := Apply(w, rule, Conclude(t)), Owner(w, t);
      && w'.ends == w.ends && OneTask(w, w', a, t) && w'.wires.Keys == w.wires.Keys
      && InSession(w', t) && Owns(w'.nodes[a], t)
  {
  }

  /** What a knock leaves: node `b` has a session and the handle, and its acknowledgement is still to be written. */
  ghost predicate Knocked(w: World, w': World, conn: nat, a: NodeId, b: NodeId) {
    var t := TaskId(conn, false);
    && w'.ends == w.ends[conn := Ends(a, b)] && OneTask(w, w', b, t) && OtherWires(w, w', conn)
    && t in w'.wires && Other(t) in w'.wires && w'.wires[Other(t)] == []
    && PhaseOf(w', t).Acking? && Owns(w'.nodes[b], t) && w'.nodes[b].tasks[t].remote == a
  }

  /** The initiator dials and the responder registers it, if it has no handle for it. */
  lemma Knock(rule: Rule, ws: seq<World>, acts: seq<Action>, conn: nat, a: NodeId, b: NodeId)
    returns (ws': seq<World>, acts': seq<Action>)
    requires Lawful(rule) && IsRun(rule, ws, acts) && conn !in ws[|acts|].ends
    requires a in ws[|acts|].nodes && b in ws[|acts|].nodes && a !in ws[|acts|].nodes[b].shared.peers
    ensures IsRun(rule, ws', acts') && ws <= ws' && acts <= acts'
    ensures Knocked(ws[|acts|], ws'[|acts'|], conn, a, b)
  {
    var t := TaskId(conn, false);
    assert t !in ws[|acts|].nodes[b].tasks by {
      RunInv(rule, ws, acts, |acts|);
      FreshConnection(ws[|acts|], conn, b, t);
    }
    Dialled(ws[|acts|], rule, conn, a, b);
    var ws1, acts1 := OneMore(rule, ws, acts, Dial(conn, a, b, ""), Apply(ws[|acts|], rule, Dial(conn, a, b, "")));
    Answered(ws1[|acts1|], rule, t);
    ws', acts' := OneMore(rule, ws1, acts1, Answer(t), Apply(ws1[|acts1|], rule, Answer(t)));
  }

  /** The same once the acknowledgement is on its way. */
  ghost predicate Greeted(w: World, w': World, conn: nat, a: NodeId, b: NodeId) {
    var t := TaskId(conn, false);
    && w'.ends == w.ends[conn := Ends(a, b)] && OneTask(w, w', b, t) && OtherWires(w, w', conn)
    && t in w'.wires && Other(t) in w'.wires && |w'.wires[Other(t)]| == 1
    && w'.wires[Other(t)][0].HandshakeAck? && w'.wires[Other(t)][0].nodeId == b
    && PhaseOf(w', t).Opening? && Owns(w'.nodes[b], t) && w'.nodes[b].tasks[t].remote == a
  }

  lemma Greet(rule: Rule, ws: seq<World>, acts: seq<Action>, conn: nat, a: NodeId, b: NodeId)
    returns (ws': seq<World>, acts': seq<Action>)
    requires Lawful(rule) && IsRun(rule, ws, acts) && conn !in ws[|acts|].ends
    requires a in ws[|acts|].nodes && b in ws[|acts|].nodes && a !in ws[|acts|].nodes[b].shared.peers
    ensures IsRun(rule, ws', acts') && ws <= ws' && acts <= acts'
    ensures Greeted(ws[|acts|], ws'[|acts'|], conn, a, b)
  {
    var t := TaskId(conn, false);
    var ws1, acts1 := Knock(rule, ws, acts, conn, a, b);
    Acknowledged(ws1[|acts1|], rule, t);
    ws', acts' := OneMore(rule, ws1, acts1, SendAck(t, ""), Apply(ws1[|acts1|], rule, SendAck(t, "")));
    RemoteIsFar(rule, ws', acts', |acts'|, t);
  }

  /** What a handshake leaves: both ends are in session and have their handles, and nothing else has moved. */
  ghost predicate Met(w: World, w': World, conn: nat, a: NodeId, b: NodeId) {
    && w'.ends == w.ends[conn := Ends(a, b)] && w'.nodes.Keys == w.nodes.Keys
    && (forall c :: c in w.nodes ==> DocOf(w', c) == DocOf(w, c))
    && Connected(w', TaskId(conn, true)) && Connected(w', TaskId(conn, false))
    && OthersAsBefore(w, w', conn)
  }

  /** The tasks of all other connections are where they were. */
  ghost predicate OthersAsBefore(w: World, w': World, conn: nat) {
    forall u: TaskId :: u.conn != conn && Running(w, u) ==> Running(w', u) && PhaseOf(w', u) == PhaseOf(w, u)
  }

  /** Any two nodes without handles for each other can connect, in any reachable world. */
  lemma Meet(rule: Rule, ws: seq<World>, acts: seq<Action>, conn: nat, a: NodeId, b: NodeId)
    returns (ws': seq<World>, acts': seq<Action>)
    requires Lawful(rule) && IsRun(rule, ws, acts) && conn !in ws[|acts|].ends && Apart(ws[|acts|], a, b)
    ensures IsRun(rule, ws', acts') && ws <= ws' && acts <= acts'
    ensures Met(ws[|acts|], ws'[|acts'|], conn, a, b)
  {
    var t := TaskId(conn, true);
    assert Wired(ws[|acts|]) && t !in ws[|acts|].nodes[a].tasks by {
      RunInv(rule, ws, acts, |acts|);
      FreshConnection(ws[|acts|], conn, a, t);
    }
    var ws1, acts1 := Greet(rule, ws, acts, conn, a, b);
    assert ws1[|acts1|].nodes[a] == ws[|acts|].nodes[a];
    Concluded(ws1[|acts1|], rule, t);
    ws', acts' := OneMore(rule, ws1, acts1, Conclude(t), Apply(ws1[|acts1|], rule, Conclude(t)));
    HaveMet(ws[|acts|], ws1[|acts1|], ws'[|acts'|], conn, a, b);
  }

  lemma HaveMet(w: World, w1: World, w': World, conn: nat, a: NodeId, b: NodeId)
    requires a in w.nodes && a != b && Greeted(w, w1, conn, a, b) && conn !in w.ends
    requires w'.ends == w1.ends && w'.wires.Keys == w1.wires.Keys && OneTask(w1, w', a, TaskId(conn, true))
    requires InSession(w', TaskId(conn, true)) && Owns(w'.nodes[a], TaskId(conn, true))
    ensures Met(w, w', conn, a, b)
  {
    OthersUntouched(w, w1, w', conn, a, b);
  }

  lemma OthersUntouched(w: World, w1: World, w': World, conn: nat, a: NodeId, b: NodeId)
    requires Greeted(w, w1, conn, a, b) && conn !in w.ends
    requires w'.ends == w1.ends && w'.wires.Keys == w1.wires.Keys && OneTask(w1, w', a, TaskId(conn, true))
    ensures OthersAsBefore(w, w', conn)
  {
    forall u: TaskId | u.conn != conn && Running(w, u)
      ensures Running(w', u) && PhaseOf(w', u) == PhaseOf(w, u)
    {
      TaskElsewhere(w, w1, b, TaskId(conn, false), u);
      TaskElsewhere(w1, w', a, TaskId(conn, true), u);
    }
  }

  lemma TaskElsewhere(w: World, w': World, b: NodeId, t: TaskId, u: TaskId)
    requires OneTask(w, w', b, t) && Running(w, u) && u != t && Other(u) in w'.wires
    requires u.conn in w'.ends && w'.ends[u.conn] == w.ends[u.conn]
    ensures Running(w', u) && PhaseOf(w', u) == PhaseOf(w, u)
  {
  }

  lemma RemoteIsFar(rule: Rule, ws: seq<World>, acts: seq<Action>, i: nat, t: TaskId)
    requires Lawful(rule) && IsRun(rule, ws, acts) && i < |ws| && Running(ws[i], t)
    ensures ws[i].nodes[Owner(ws[i], t)].tasks[t].remote == Owner(ws[i], Other(t))
  {
    var w, a := ws[i], Owner(ws[i], t);
    assert Wired(w) by {
      RunInv(rule, ws, acts, i);
    }
    assert GoodTask(w, w.history, DocsOf(w), a, t, w.nodes[a].tasks[t]);
  }

  // -- The end of a session -----------------------------------------------------------------------

  lemma Exited(w: World, rule: Rule, t: TaskId)
    requires Running(w, t) && PhaseOf(w, t).Looping?
    ensures var act := Local(Owner(w, t), Exit(t));
      && Enabled(w, rule, act)
      && var w' := Apply(w, rule, act);
      && w'.ends == w.ends && w'.wires.Keys == w.wires.Keys && OnlyTasks(w, w', Owner(w, t))
      && Running(w', t) && PhaseOf(w', t).Ended? && OthersStay(w, w', t)
      && w'.nodes[Owner(w, t)].tasks[t].remote == w.nodes[Owner(w, t)].tasks[t].remote
  {
  }

  lemma Finished(w: World, rule: Rule, t: TaskId, names: seq<string>)
    requires Running(w, t) && PhaseOf(w, t).Ended?
    requires ServicesToRemove(DocOf(w, Owner(w, t)), rule, w.nodes[Owner(w, t)].tasks[t].remote, names)
    ensures var act := Local(Owner(w, t), Finish(t, names));
      && Enabled(w, rule, act) && Removes(w, act, Owner(w, t), w.nodes[Owner(w, t)].tasks[t].remote)
      && var w', a, remote := Apply(w, rule, act), Owner(w, t), w.nodes[Owner(w, t)].tasks[t].remote;
      && w'.ends == w.ends && w'.wires.Keys == w.wires.Keys && a in w'.nodes && w'.nodes == w.nodes[a := w'.nodes[a]]
      && Running(w', t) && PhaseOf(w', t).Cleaned? && OthersStay(w, w', t)
      && DocOf(w', a) == RemoveNode(DocOf(w, a), remote, names)
      && w'.nodes[a].shared.peers == w.nodes[a].shared.peers - {remote}
  {
  }

  ghost predicate Removed(doc: Doc, after: Doc, rule: Rule, n: NodeId) {
    exists names :: ServicesToRemove(doc, rule, n, names) && after == RemoveNode(doc, n, names)
  }

  /** What the end of a session leaves: the handle is gone and the peer removed, and nobody else has moved. */
  ghost predicate HungUp(w: World, w': World, rule: Rule, t: TaskId)
    requires Running(w, t)
  {
    var a, n := Owner(w, t), Owner(w, Other(t));
    && w'.ends == w.ends && w'.wires.Keys == w.wires.Keys
    && a in w'.nodes && w'.nodes == w.nodes[a := w'.nodes[a]]
    && Running(w', t) && PhaseOf(w', t).Cleaned? && OthersStay(w, w', t)
    && w'.nodes[a].shared.peers == w.nodes[a].shared.peers - {n}
    && Removed(DocOf(w, a), DocOf(w', a), rule, n)
  }

  /** No leave command is processed from action `i` on. */
  ghost predicate NoLeaves(acts: seq<Action>, i: nat) {
    forall k :: i <= k < |acts| && acts[k].Local? ==> !acts[k].step.LeaveAddr?
  }

  lemma LeaveLoop(rule: Rule, ws: seq<World>, acts: seq<Action>, t: TaskId)
    returns (ws': seq<World>, acts': seq<Action>)
    requires Lawful(rule) && IsRun(rule, ws, acts) && InSession(ws[|acts|], t)
    ensures IsRun(rule, ws', acts') && ws <= ws' && acts <= acts' && NoLeaves(acts', |acts|)
    ensures var w, w', a := ws[|acts|], ws'[|acts'|], Owner(ws[|acts|], t);
      && w'.ends == w.ends && w'.wires.Keys == w.wires.Keys && OnlyTasks(w, w', a) && OthersStay(w, w', t)
      && Running(w', t) && PhaseOf(w', t).Ended?
  {
    var a := Owner(ws[|acts|], t);
    var ws1, acts1 := Settle(rule, ws, acts, t);
    Exited(ws1[|acts1|], rule, t);
    ws', acts' := OneMore(rule, ws1, acts1, Local(a, Exit(t)), Apply(ws1[|acts1|], rule, Local(a, Exit(t))));
    forall k | |acts| <= k < |acts'| && acts'[k].Local? ensures !acts'[k].step.LeaveAddr? {
      assert k < |acts1| ==> acts'[k] == acts1[k] && Exchange(ws1[k], acts1[k], t.conn);
    }
  }

  /** A session whose loop is over removes the peer. */
  lemma CleanedUp(rule: Rule, ws: seq<World>, acts: seq<Action>, t: TaskId)
    returns (ws': seq<World>, acts': seq<Action>)
    requires Lawful(rule) && IsRun(rule, ws, acts) && Running(ws[|acts|], t) && PhaseOf(ws[|acts|], t).Ended?
    ensures IsRun(rule, ws', acts') && ws <= ws' && acts <= acts' && |acts'| == |acts| + 1 && NoLeaves(acts', |acts|)
    ensures HungUp(ws[|acts|], ws'[|acts'|], rule, t)
    ensures Removes(ws[|acts|], acts'[|acts|], Owner(ws[|acts|], t), Owner(ws[|acts|], Other(t)))
  {
    var a, n := Owner(ws[|acts|], t), Owner(ws[|acts|], Other(t));
    RemoteIsFar(rule, ws, acts, |acts|, t);
    var names := Enumerate(NodeServices(TombstoneNode(DocOf(ws[|acts|], a), n), rule, n).Keys);
    Finished(ws[|acts|], rule, t, names);
    var act := Local(a, Finish(t, names));
    ws', acts' := OneMore(rule, ws, acts, act, Apply(ws[|acts|], rule, act));
  }

  /** Any session can end, in any reachable world, and then its node removes the peer as its last action. */
  lemma HangUp(rule: Rule, ws: seq<World>, acts: seq<Action>, t: TaskId)
    returns (ws': seq<World>, acts': seq<Action>)
    requires Lawful(rule) && IsRun(rule, ws, acts) && InSession(ws[|acts|], t)
    ensures IsRun(rule, ws', acts') && ws <= ws' && acts < acts' && NoLeaves(acts', |acts|)
    ensures HungUp(ws[|acts|], ws'[|acts'|], rule, t)
    ensures var a, n, last := Owner(ws[|acts|], t), Owner(ws[|acts|], Other(t)), |acts'| - 1;
      Removes(ws'[last], acts'[last], a, n) && DocOf(ws'[last], a) == DocOf(ws[|acts|], a)
  {
    var ws1, acts1 := LeaveLoop(rule, ws, acts, t);
    ws', acts' := CleanedUp(rule, ws1, acts1, t);
    AfterLoop(ws[|acts|], ws1[|acts1|], ws'[|acts'|], rule, t);
    NoLeavesAfter(acts, acts1, acts');
    assert ws'[|acts1|] == ws1[|acts1|];
  }

  lemma NoLeavesAfter(acts: seq<Action>, acts1: seq<Action>, acts2: seq<Action>)
    requires acts <= acts1 <= acts2 && NoLeaves(acts1, |acts|) && NoLeaves(acts2, |acts1|)
    ensures NoLeaves(acts2, |acts|)
  {
    forall k | |acts| <= k < |acts2| && acts2[k].Local? ensures !acts2[k].step.LeaveAddr? {
      assert k < |acts1| ==> acts2[k] == acts1[k];
    }
  }

  lemma AfterLoop(w: World, w1: World, w': World, rule: Rule, t: TaskId)
    requires Running(w, t) && w1.ends == w.ends && w1.wires.Keys == w.wires.Keys && OnlyTasks(w, w1, Owner(w, t))
    requires OthersStay(w, w1, t) && Running(w1, t) && HungUp(w1, w', rule, t)
    ensures HungUp(w, w', rule, t)
  {
    var a := Owner(w, t);
    assert DocOf(w1, a) == DocOf(w, a);
    assert w1.nodes[a].shared == w.nodes[a].shared;
    assert w'.nodes == w.nodes[a := w'.nodes[a]];
  }

  /** Both ends of a connection hang up, its initiator first. */
  lemma Part(rule: Rule, ws: seq<World>, acts: seq<Action>, conn: nat, a: NodeId, b: NodeId)
    returns (ws': seq<World>, acts': seq<Action>, i: nat)
    requires Lawful(rule) && IsRun(rule, ws, acts) && conn in ws[|acts|].ends && ws[|acts|].ends[conn] == Ends(a, b)
    requires a != b && InSession(ws[|acts|], TaskId(conn, true)) && InSession(ws[|acts|], TaskId(conn, false))
    ensures IsRun(rule, ws', acts') && ws <= ws' && acts <= acts' && i < |acts'|
    ensures Removes(ws'[i], acts'[i], a, b) && DocOf(ws'[i], a) == DocOf(ws[|acts|], a)
    ensures Parted(ws[|acts|], ws'[|acts'|], rule, a, b)
  {
    var ws1, acts1 := HangUp(rule, ws, acts, TaskId(conn, true));
    i := |acts1| - 1;
    assert ws1[|acts1|].nodes[b] == ws[|acts|].nodes[b];
    ws', acts' := HangUp(rule, ws1, acts1, TaskId(conn, false));
    assert ws'[i] == ws1[i] && acts'[i] == acts1[i];
    assert ws'[|acts'|].nodes[a] == ws1[|acts1|].nodes[a];
  }

  /** What parting leaves: each has removed the other, and they have no handles for each other. */
  ghost predicate Parted(w: World, w': World, rule: Rule, a: NodeId, b: NodeId)
    requires a in w.nodes && b in w.nodes
  {
    && w'.ends == w.ends && w'.nodes.Keys == w.nodes.Keys && Apart(w', a, b)
    && Removed(DocOf(w, a), DocOf(w', a), rule, b) && Removed(DocOf(w, b), DocOf(w', b), rule, a)
  }
}
