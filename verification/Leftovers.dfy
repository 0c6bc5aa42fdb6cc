/** Handles that outlive their sessions, and sessions that outlive their handles. */
module Leftovers {
  import opened Causality
  import opened Document
  import opened Membership
  import opened Replication
  import opened Daemon
  import opened Sessions
  import opened Cluster
  import opened ClusterInvariant
  import opened Guarantees
  import opened Tombstones
  import opened SyncRound
  import opened Encounters

  // -- Leaked sessions ----------------------------------------------------------------------------

  lemma Failed(w: World, rule: Rule, t: TaskId)
    requires Running(w, t) && PhaseOf(w, t).Acking?
    ensures var act, b := Local(Owner(w, t), Fail(t)), Owner(w, t);
      && Enabled(w, rule, act)
      && var w' := Apply(w, rule, act);
      && w'.ends == w.ends && b in w'.nodes && w'.nodes[b] == SetPhase(w.nodes[b], t, Leaked)
  {
  }

  /**
   In any reachable world one failed write can shut a peer out: all it takes is that node `b` has no handle of `a`
   and no session with it that could still clean up.
   */
  lemma LeakCanHappen(rule: Rule, ws: seq<World>, acts: seq<Action>, conn: nat, a: NodeId, b: NodeId)
    returns (ws': seq<World>, acts': seq<Action>)
    requires Lawful(rule) && IsRun(rule, ws, acts) && conn !in ws[|acts|].ends
    requires a in ws[|acts|].nodes && b in ws[|acts|].nodes && a !in ws[|acts|].nodes[b].shared.peers
    requires forall u :: u in LiveTasks(ws[|acts|].nodes[b], a) ==> ws[|acts|].nodes[b].tasks[u].phase.Leaked?
    ensures IsRun(rule, ws', acts') && ws <= ws' && acts <= acts'
    ensures exists addr :: Blocked(ws'[|acts'|], b, TaskId(conn, false), a, addr)
  {
    var t := TaskId(conn, false);
    var ws1, acts1 := Knock(rule, ws, acts, conn, a, b);
    Failed(ws1[|acts1|], rule, t);
    ws', acts' := OneMore(rule, ws1, acts1, Local(b, Fail(t)), Apply(ws1[|acts1|], rule, Local(b, Fail(t))));
    IsShutOut(ws[|acts|].nodes[b], ws1[|acts1|].nodes[b], ws'[|acts'|].nodes[b], t, a);
    assert Blocked(ws'[|acts'|], b, t, a, AddrOf(ws'[|acts'|].nodes[b], t));
  }

  lemma IsShutOut(node: Node, node1: Node, node': Node, t: TaskId, n: NodeId)
    requires t in node1.tasks && node1.tasks == node.tasks[t := node1.tasks[t]] && Owns(node1, t)
    requires node1.tasks[t].remote == n && node' == SetPhase(node1, t, Leaked)
    requires forall u :: u in LiveTasks(node, n) ==> node.tasks[u].phase.Leaked?
    ensures ShutOut(node', t) && node'.tasks[t].remote == n
  {
    forall u | u in LiveTasks(node', n) ensures node'.tasks[u].phase.Leaked? {
      assert u != t ==> u in LiveTasks(node, n);
    }
  }

  lemma LiveRuns(rule: Rule, ws: seq<World>, acts: seq<Action>, i: nat, a: NodeId, u: TaskId)
    requires Lawful(rule) && IsRun(rule, ws, acts) && i < |ws| && a in ws[i].nodes && u in ws[i].nodes[a].tasks
    ensures Running(ws[i], u) && Owner(ws[i], u) == a && Owner(ws[i], Other(u)) == ws[i].nodes[a].tasks[u].remote
  {
    var w := ws[i];
    assert Wired(w) by {
      RunInv(rule, ws, acts, i);
    }
    assert GoodNode(w, w.history, DocsOf(w), a, w.nodes[a]);
    assert GoodTask(w, w.history, DocsOf(w), a, u, w.nodes[a].tasks[u]);
  }

  /**
   The condition is exact: where another session with `n` is neither cleaned up nor leaked, the run can go on so
   that this session's cleanup drops the handle of `n`, without any leave command.
   */
  lemma OtherSessionFreesPeer(rule: Rule, ws: seq<World>, acts: seq<Action>, a: NodeId, n: NodeId, u: TaskId)
    returns (ws': seq<World>, acts': seq<Action>)
    requires Lawful(rule) && IsRun(rule, ws, acts) && a in ws[|acts|].nodes
    requires u in LiveTasks(ws[|acts|].nodes[a], n) && !ws[|acts|].nodes[a].tasks[u].phase.Leaked?
    ensures IsRun(rule, ws', acts') && ws <= ws' && acts <= acts' && NoLeaves(acts', |acts|)
    ensures a in ws'[|acts'|].nodes && n !in ws'[|acts'|].nodes[a].shared.peers
  {
    LiveRuns(rule, ws, acts, |acts|, a, u);
    if PhaseOf(ws[|acts|], u).Ended? {
      ws', acts' := CleanedUp(rule, ws, acts, u);
    } else {
      ws', acts' := HangUp(rule, ws, acts, u);
    }
  }

  // -- Sessions without their handles -------------------------------------------------------------

  lemma LeftBy(w: World, rule: Rule, a: NodeId, n: NodeId)
    requires a in w.nodes && n in w.nodes[a].shared.peers
    ensures var act := Local(a, LeaveAddr(w.nodes[a].shared.peers[n].addr));
      && Enabled(w, rule, act)
      && var w' := Apply(w, rule, act);
      && w'.ends == w.ends && w'.wires == w.wires && a in w'.nodes && w'.nodes == w.nodes[a := w'.nodes[a]]
      && w'.nodes[a].tasks == w.nodes[a].tasks && DocOf(w', a) == DocOf(w, a)
      && n !in w'.nodes[a].shared.peers
  {
  }

  /** Both ends of a connection process a leave command for each other: the handles go, the sessions stay. */
  lemma LeaveEachOther(rule: Rule, ws: seq<World>, acts: seq<Action>, conn: nat, a: NodeId, b: NodeId)
    returns (ws': seq<World>, acts': seq<Action>)
    requires IsRun(rule, ws, acts) && a != b && conn in ws[|acts|].ends && ws[|acts|].ends[conn] == Ends(a, b)
    requires InSession(ws[|acts|], TaskId(conn, true)) && InSession(ws[|acts|], TaskId(conn, false))
    requires b in ws[|acts|].nodes[a].shared.peers && a in ws[|acts|].nodes[b].shared.peers
    ensures IsRun(rule, ws', acts') && ws <= ws' && acts <= acts'
    ensures ws'[|acts'|].ends == ws[|acts|].ends && Apart(ws'[|acts'|], a, b)
    ensures InSession(ws'[|acts'|], TaskId(conn, true)) && InSession(ws'[|acts'|], TaskId(conn, false))
  {
    LeftBy(ws[|acts|], rule, a, b);
    var act := Local(a, LeaveAddr(ws[|acts|].nodes[a].shared.peers[b].addr));
    var ws1, acts1 := OneMore(rule, ws, acts, act, Apply(ws[|acts|], rule, act));
    assert ws1[|acts1|].nodes[b] == ws[|acts|].nodes[b];
    LeftBy(ws1[|acts1|], rule, b, a);
    var act1 := Local(b, LeaveAddr(ws1[|acts1|].nodes[b].shared.peers[a].addr));
    ws', acts' := OneMore(rule, ws1, acts1, act1, Apply(ws1[|acts1|], rule, act1));
    assert ws'[|acts'|].nodes[a] == ws1[|acts1|].nodes[a];
  }

  lemma MeetAndLeave(rule: Rule, ws: seq<World>, acts: seq<Action>, conn: nat, a: NodeId, b: NodeId)
    returns (ws': seq<World>, acts': seq<Action>)
    requires Lawful(rule) && IsRun(rule, ws, acts) && conn !in ws[|acts|].ends && Apart(ws[|acts|], a, b)
    ensures IsRun(rule, ws', acts') && ws <= ws' && acts <= acts'
    ensures ws'[|acts'|].ends == ws[|acts|].ends[conn := Ends(a, b)] && Apart(ws'[|acts'|], a, b)
    ensures InSession(ws'[|acts'|], TaskId(conn, true)) && InSession(ws'[|acts'|], TaskId(conn, false))
  {
    var ws1, acts1 := Meet(rule, ws, acts, conn, a, b);
    RemoteIsFar(rule, ws1, acts1, |acts1|, TaskId(conn, true));
    RemoteIsFar(rule, ws1, acts1, |acts1|, TaskId(conn, false));
    ws', acts' := LeaveEachOther(rule, ws1, acts1, conn, a, b);
  }

  /**
   A leave command drops the handle and not the session: from any reachable world where two nodes have no handles
   for each other, they can get to two live sessions with each other, of which the first has no handle.
   */
  lemma LeaveLeavesTwo(rule: Rule, ws: seq<World>, acts: seq<Action>, conn: nat, conn': nat, a: NodeId, b: NodeId)
    returns (ws': seq<World>, acts': seq<Action>)
    requires Lawful(rule) && IsRun(rule, ws, acts) && Apart(ws[|acts|], a, b)
    requires conn !in ws[|acts|].ends && conn' !in ws[|acts|].ends && conn != conn'
    ensures IsRun(rule, ws', acts') && ws <= ws' && acts <= acts'
    ensures var w := ws'[|acts'|];
      && conn in w.ends && conn' in w.ends && w.ends[conn] == w.ends[conn'] == Ends(a, b)
      && InSession(w, TaskId(conn, true)) && InSession(w, TaskId(conn, false))
      && Connected(w, TaskId(conn', true)) && Connected(w, TaskId(conn', false))
      && {TaskId(conn, true), TaskId(conn', true)} <= LiveTasks(w.nodes[a], b)
      && !Owns(w.nodes[a], TaskId(conn, true))
  {
    var ws1, acts1 := MeetAndLeave(rule, ws, acts, conn, a, b);
    ws', acts' := Meet(rule, ws1, acts1, conn', a, b);
    RemoteIsFar(rule, ws', acts', |acts'|, TaskId(conn, true));
    RemoteIsFar(rule, ws', acts', |acts'|, TaskId(conn', true));
  }

  /**
   And the end of the first one then takes the handle of the second: node `a` tombstones `b`, in session with it.
   */
  lemma OldSessionTakesHandle(rule: Rule, ws: seq<World>, acts: seq<Action>, t: TaskId, t': TaskId)
    returns (ws': seq<World>, acts': seq<Action>)
    requires Lawful(rule) && IsRun(rule, ws, acts) && t != t'
    requires InSession(ws[|acts|], t) && InSession(ws[|acts|], t')
    requires Owner(ws[|acts|], t) == Owner(ws[|acts|], t')
    requires Owner(ws[|acts|], Other(t)) == Owner(ws[|acts|], Other(t'))
    ensures IsRun(rule, ws', acts') && ws <= ws' && acts <= acts' && NoLeaves(acts', |acts|)
    ensures var w, w', a := ws[|acts|], ws'[|acts'|], Owner(ws[|acts|], t);
      && a in w'.nodes && InSession(w', t') && !Owns(w'.nodes[a], t')
      && Removed(DocOf(w, a), DocOf(w', a), rule, Owner(w, Other(t')))
  {
    ws', acts' := HangUp(rule, ws, acts, t);
    RemoteIsFar(rule, ws', acts', |acts'|, t');
  }
}
