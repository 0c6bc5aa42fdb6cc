/** Where things come from, in every run: addresses, first vectors, members and services. */
module Provenance {
  import opened Causality
  import opened Document
  import opened Membership
  import opened Replication
  import opened Daemon
  import opened Sessions
  import opened Cluster
  import opened ClusterInvariant
  import opened Tombstones
  import opened Effects

  // -- Handshakes -----------------------------------------------------------------------------------

  /** Node `n` announced `addr` to the owner of task `t`: when it dialled, or in its acknowledgement. */
  ghost predicate Introduced(ws: seq<World>, acts: seq<Action>, i: nat, t: TaskId, n: NodeId, addr: string)
    requires i <= |acts| < |ws|
  {
    exists d :: 0 <= d < i && (
      if t.initiator then acts[d] == SendAck(Other(t), addr) && t.conn in ws[d].ends && Far(ws[d], t) == n
      else acts[d].Dial? && acts[d].conn == t.conn && acts[d].initiator == n && acts[d].addr == addr)
  }

  /** `vv` was the vector of node `n` when it registered the session `u`. */
  ghost predicate VectorAt(ws: seq<World>, acts: seq<Action>, i: nat, u: TaskId, n: NodeId, vv: VersionVector)
    requires i <= |acts| < |ws|
  {
    exists e :: 0 <= e < i && acts[e] == Answer(u) && n in ws[e].nodes && vv == DocOf(ws[e], n).vv
  }

  /** Every handshake and acknowledgement on a wire says what its sender put into it. */
  ghost predicate Truthful(ws: seq<World>, acts: seq<Action>, i: nat, t: TaskId, m: Message)
    requires i <= |acts| < |ws|
  {
    match m
    case Handshake(id, addr) => !t.initiator && Introduced(ws, acts, i, t, id, addr)
    case HandshakeAck(id, addr, vv) =>
      t.initiator && Introduced(ws, acts, i, t, id, addr) && VectorAt(ws, acts, i, Other(t), id, vv)
    case MembershipSync(_, _) => true
  }

  ghost predicate AllTruthful(ws: seq<World>, acts: seq<Action>, i: nat)
    requires i <= |acts| < |ws|
  {
    && (forall t, m :: t in ws[i].wires && m in ws[i].wires[t] ==> Truthful(ws, acts, i, t, m))
    && (forall a, u :: a in ws[i].nodes && u in ws[i].nodes[a].tasks && ws[i].nodes[a].tasks[u].phase.Acking? ==>
          !u.initiator && VectorAt(ws, acts, i, u, a, ws[i].nodes[a].tasks[u].phase.vv))
  }

  lemma TruthfulLater(ws: seq<World>, acts: seq<Action>, i: nat, t: TaskId, m: Message)
    requires i < |acts| < |ws| && Truthful(ws, acts, i, t, m)
    ensures Truthful(ws, acts, i + 1, t, m)
  {
    match m
    case Handshake(id, addr) => IntroducedLater(ws, acts, i, t, id, addr);
    case HandshakeAck(id, addr, vv) =>
      IntroducedLater(ws, acts, i, t, id, addr);
      VectorLater(ws, acts, i, Other(t), id, vv);
    case MembershipSync(_, _) =>
  }

  lemma IntroducedLater(ws: seq<World>, acts: seq<Action>, i: nat, t: TaskId, n: NodeId, addr: string)
    requires i < |acts| < |ws| && Introduced(ws, acts, i, t, n, addr)
    ensures Introduced(ws, acts, i + 1, t, n, addr)
  {
  }

  lemma VectorLater(ws: seq<World>, acts: seq<Action>, i: nat, u: TaskId, n: NodeId, vv: VersionVector)
    requires i < |acts| < |ws| && VectorAt(ws, acts, i, u, n, vv)
    ensures VectorAt(ws, acts, i + 1, u, n, vv)
  {
  }

  /** The messages after an action: those before, and what the action adds. */
  lemma MessageTruthful(rule: Rule, ws: seq<World>, acts: seq<Action>, i: nat, t: TaskId, m: Message)
    requires Lawful(rule) && IsRun(rule, ws, acts) && i < |acts| && AllTruthful(ws, acts, i)
    requires t in ws[i + 1].wires && m in ws[i + 1].wires[t]
    ensures Truthful(ws, acts, i + 1, t, m)
  {
    var w, act := ws[i], acts[i];
    assert Enabled(w, rule, act);
    ActionWire(w, rule, act, t);
    if t in w.wires && m in w.wires[t] && !(act.Dial? && act.conn == t.conn) {
      TruthfulLater(ws, acts, i, t, m);
    } else if act.SendAck? {
      var n := Far(w, t);
      assert acts[i] == SendAck(Other(t), act.addr);
      assert VectorAt(ws, acts, i, Other(t), n, w.nodes[n].tasks[act.t].phase.vv);
      VectorLater(ws, acts, i, Other(t), n, w.nodes[n].tasks[act.t].phase.vv);
    }
  }

  lemma AckPhaseTruthful(rule: Rule, ws: seq<World>, acts: seq<Action>, i: nat, a: NodeId, u: TaskId)
    requires Lawful(rule) && IsRun(rule, ws, acts) && i < |acts| && AllTruthful(ws, acts, i)
    requires a in ws[i + 1].nodes && u in ws[i + 1].nodes[a].tasks && ws[i + 1].nodes[a].tasks[u].phase.Acking?
    ensures !u.initiator && VectorAt(ws, acts, i + 1, u, a, ws[i + 1].nodes[a].tasks[u].phase.vv)
  {
    TasksAfter(rule, ws, acts, i, a, u);
    var vv := ws[i + 1].nodes[a].tasks[u].phase.vv;
    if HasStep(acts[i]) && Actor(ws[i], acts[i]) == a {
      StepOfAction(ws[i], acts[i]);
    }
    if acts[i] != Answer(u) {
      VectorLater(ws, acts, i, u, a, vv);
    }
  }

  lemma {:induction false} RunTruthful(rule: Rule, ws: seq<World>, acts: seq<Action>, i: nat)
    requires Lawful(rule) && IsRun(rule, ws, acts) && i <= |acts|
    ensures AllTruthful(ws, acts, i)
    decreases i
  {
    if i > 0 {
      RunTruthful(rule, ws, acts, i - 1);
      forall t, m | t in ws[i].wires && m in ws[i].wires[t] ensures Truthful(ws, acts, i, t, m) {
        MessageTruthful(rule, ws, acts, i - 1, t, m);
      }
      forall a, u | a in ws[i].nodes && u in ws[i].nodes[a].tasks && ws[i].nodes[a].tasks[u].phase.Acking?
        ensures !u.initiator && VectorAt(ws, acts, i, u, a, ws[i].nodes[a].tasks[u].phase.vv)
      {
        AckPhaseTruthful(rule, ws, acts, i - 1, a, u);
      }
    }
  }

  // -- Handles and sessions -------------------------------------------------------------------------

  /** A handshake or an acknowledgement that is waiting in a run is the announcement of its sender. */
  lemma HeadTruthful(rule: Rule, ws: seq<World>, acts: seq<Action>, i: nat)
    requires Lawful(rule) && IsRun(rule, ws, acts) && i < |acts| && (acts[i].Answer? || acts[i].Conclude?)
    ensures Waiting(ws[i], acts[i].t) && !Head(ws[i], acts[i]).MembershipSync?
    ensures var m := Head(ws[i], acts[i]);
      && (acts[i].Answer? <==> m.Handshake?) && (acts[i].Answer? <==> !acts[i].t.initiator)
      && Introduced(ws, acts, i, acts[i].t, m.nodeId, m.addr)
      && (m.HandshakeAck? ==> VectorAt(ws, acts, i, Other(acts[i].t), m.nodeId, m.vv))
  {
    assert Enabled(ws[i], rule, acts[i]);
    RunTruthful(rule, ws, acts, i);
    var t := acts[i].t;
    assert ws[i].wires[t][0] in ws[i].wires[t];
    assert Truthful(ws, acts, i, t, ws[i].wires[t][0]);
  }

  /**
   In every run the address of a handle is the one that its node announced on the connection of the handle's task:
   in its handshake if it dialled, in its acknowledgement if it was dialled.
   */
  lemma {:induction false} HandleIntroduced(rule: Rule, ws: seq<World>, acts: seq<Action>, i: nat, a: NodeId, n: NodeId)
    requires Lawful(rule) && IsRun(rule, ws, acts) && i <= |acts|
    requires a in ws[i].nodes && n in ws[i].nodes[a].shared.peers
    ensures var h := ws[i].nodes[a].shared.peers[n]; Introduced(ws, acts, i, h.task, n, h.addr)
    decreases i
  {
    if i > 0 {
      var w, act := ws[i - 1], acts[i - 1];
      var h := ws[i].nodes[a].shared.peers[n];
      assert Enabled(w, rule, act);
      if a !in w.nodes {
        NewNodeHasNoPeers(w, rule, act, a);
      } else {
        HandlesAfter(rule, ws, acts, i - 1, a, n);
        if Registers(w, act, a, n) {
          HeadTruthful(rule, ws, acts, i - 1);
        } else {
          HandleIntroduced(rule, ws, acts, i - 1, a, n);
        }
        IntroducedLater(ws, acts, i - 1, h.task, n, h.addr);
      }
    }
  }

  lemma NewNodeHasNoPeers(w: World, rule: Rule, act: Action, a: NodeId)
    requires Enabled(w, rule, act) && a in Apply(w, rule, act).nodes && a !in w.nodes
    ensures Apply(w, rule, act).nodes[a].shared.peers == map[] && Apply(w, rule, act).nodes[a].tasks == map[]
  {
  }

  /** The same for the address that a session keeps for the event at its end. */
  lemma {:induction false} SessionIntroduced(rule: Rule, ws: seq<World>, acts: seq<Action>, i: nat,
                                             a: NodeId, u: TaskId)
    requires Lawful(rule) && IsRun(rule, ws, acts) && i <= |acts|
    requires a in ws[i].nodes && u in ws[i].nodes[a].tasks
    ensures var task := ws[i].nodes[a].tasks[u]; Introduced(ws, acts, i, u, task.remote, task.addr)
    decreases i
  {
    if i > 0 {
      var w, act := ws[i - 1], acts[i - 1];
      var task := ws[i].nodes[a].tasks[u];
      assert Enabled(w, rule, act);
      TasksAfter(rule, ws, acts, i - 1, a, u);
      if HasStep(act) {
        StepOfAction(w, act);
      }
      if a in w.nodes && u in w.nodes[a].tasks {
        SessionIntroduced(rule, ws, acts, i - 1, a, u);
      } else {
        HeadTruthful(rule, ws, acts, i - 1);
      }
      IntroducedLater(ws, acts, i - 1, u, task.remote, task.addr);
    }
  }

  lemma {:induction false} ConnectionStays(rule: Rule, ws: seq<World>, acts: seq<Action>, d: nat, i: nat, conn: nat)
    requires IsRun(rule, ws, acts) && d <= i < |ws| && conn in ws[d].ends
    ensures conn in ws[i].ends
    decreases i
  {
    if d < i {
      ConnectionStays(rule, ws, acts, d, i - 1, conn);
      assert Enabled(ws[i - 1], rule, acts[i - 1]);
      ActionConnects(ws[i - 1], rule, acts[i - 1]);
    }
  }

  lemma {:induction false} AcknowledgedStays(rule: Rule, ws: seq<World>, acts: seq<Action>, d: nat, i: nat,
                                             a: NodeId, u: TaskId)
    requires Lawful(rule) && IsRun(rule, ws, acts) && d <= i < |ws|
    requires a in ws[d].nodes && u in ws[d].nodes[a].tasks && !ws[d].nodes[a].tasks[u].phase.Acking?
    ensures a in ws[i].nodes && u in ws[i].nodes[a].tasks && !ws[i].nodes[a].tasks[u].phase.Acking?
    decreases i
  {
    if d < i {
      AcknowledgedStays(rule, ws, acts, d, i - 1, a, u);
      assert Enabled(ws[i - 1], rule, acts[i - 1]);
      NodeStays(ws[i - 1], rule, acts[i - 1], a);
      TasksAfter(rule, ws, acts, i - 1, a, u);
    }
  }

  lemma DialledOnce(rule: Rule, ws: seq<World>, acts: seq<Action>, d: nat, e: nat)
    requires IsRun(rule, ws, acts) && d <= e < |acts| && acts[d].Dial? && acts[e].Dial? && acts[d].conn == acts[e].conn
    ensures d == e
  {
    assert Enabled(ws[d], rule, acts[d]) && Enabled(ws[e], rule, acts[e]);
    ActionConnects(ws[d], rule, acts[d]);
    if d < e {
      ConnectionStays(rule, ws, acts, d + 1, e, acts[d].conn);
    }
  }

  lemma AcknowledgedOnce(rule: Rule, ws: seq<World>, acts: seq<Action>, d: nat, e: nat)
    requires Lawful(rule) && IsRun(rule, ws, acts) && d <= e < |acts|
    requires acts[d].SendAck? && acts[e].SendAck? && acts[d].t == acts[e].t
    ensures d == e
  {
    assert Enabled(ws[d], rule, acts[d]) && Enabled(ws[e], rule, acts[e]);
    var a, u := Owner(ws[d], acts[d].t), acts[d].t;
    if d < e {
      SameOwner(rule, ws, acts, d, e, u);
      NodeStays(ws[d], rule, acts[d], a);
      TasksAfter(rule, ws, acts, d, a, u);
      AcknowledgedStays(rule, ws, acts, d + 1, e, a, u);
    }
  }

  lemma {:induction false} SameOwner(rule: Rule, ws: seq<World>, acts: seq<Action>, d: nat, i: nat, u: TaskId)
    requires IsRun(rule, ws, acts) && d <= i < |ws| && u.conn in ws[d].ends
    ensures u.conn in ws[i].ends && Owner(ws[i], u) == Owner(ws[d], u)
    decreases i
  {
    if d < i {
      SameOwner(rule, ws, acts, d, i - 1, u);
      assert Enabled(ws[i - 1], rule, acts[i - 1]);
      ActionConnects(ws[i - 1], rule, acts[i - 1]);
    }
  }

  /** A peer announces one address per connection. */
  lemma IntroducedOnce(rule: Rule, ws: seq<World>, acts: seq<Action>, i: nat, t: TaskId, n: NodeId,
                       x: string, y: string)
    requires Lawful(rule) && IsRun(rule, ws, acts) && i <= |acts|
    requires Introduced(ws, acts, i, t, n, x) && Introduced(ws, acts, i, t, n, y)
    ensures x == y
  {
    if t.initiator {
      var d :| 0 <= d < i && acts[d] == SendAck(Other(t), x);
      var e :| 0 <= e < i && acts[e] == SendAck(Other(t), y);
      if d <= e {
        AcknowledgedOnce(rule, ws, acts, d, e);
      } else {
        AcknowledgedOnce(rule, ws, acts, e, d);
      }
    } else {
      var d :| 0 <= d < i && acts[d].Dial? && acts[d].conn == t.conn && acts[d].addr == x;
      var e :| 0 <= e < i && acts[e].Dial? && acts[e].conn == t.conn && acts[e].addr == y;
      if d <= e {
        DialledOnce(rule, ws, acts, d, e);
      } else {
        DialledOnce(rule, ws, acts, e, d);
      }
    }
  }

  /** A leave command drops a peer's handle if and only if it names the address that the peer announced. */
  lemma LeaveByAnnouncedAddress(rule: Rule, ws: seq<World>, acts: seq<Action>, i: nat, a: NodeId, n: NodeId,
                                addr: string)
    requires Lawful(rule) && IsRun(rule, ws, acts) && i < |acts|
    requires acts[i].Local? && acts[i].a == a && acts[i].step.LeaveAddr?
    requires a in ws[i].nodes && n in ws[i].nodes[a].shared.peers
    requires Introduced(ws, acts, i, ws[i].nodes[a].shared.peers[n].task, n, addr)
    ensures a in ws[i + 1].nodes
    ensures n !in ws[i + 1].nodes[a].shared.peers <==> acts[i].step.addr == addr
  {
    var h := ws[i].nodes[a].shared.peers[n];
    HandleIntroduced(rule, ws, acts, i, a, n);
    IntroducedOnce(rule, ws, acts, i, h.task, n, h.addr, addr);
    HandlesAfter(rule, ws, acts, i, a, n);
  }

  /**
   The vector that a handle begins with: none where the peer dialled, and where it was dialled the vector that it had
   when it registered the session.
   */
  lemma FirstVector(rule: Rule, ws: seq<World>, acts: seq<Action>, i: nat, a: NodeId, n: NodeId)
    requires Lawful(rule) && IsRun(rule, ws, acts) && i < |acts| && a in ws[i].nodes && Registers(ws[i], acts[i], a, n)
    ensures a in ws[i + 1].nodes && n in ws[i + 1].nodes[a].shared.peers
    ensures var h := ws[i + 1].nodes[a].shared.peers[n];
      && h.task == acts[i].t
      && if acts[i].Answer? then h.lastVv == map[] else VectorAt(ws, acts, i, Other(acts[i].t), n, h.lastVv)
  {
    HeadTruthful(rule, ws, acts, i);
    HandlesAfter(rule, ws, acts, i, a, n);
  }

  /** What a session that took a wake-up sends, in every run: nothing that the stored vector covers, and all else. */
  lemma NextDeltaExact(rule: Rule, ws: seq<World>, acts: seq<Action>, i: nat, a: NodeId, u: TaskId)
    requires Lawful(rule) && IsRun(rule, ws, acts) && i < |acts| && acts[i] == Local(a, ReadDelta(u))
    ensures a in ws[i].nodes && u in ws[i].nodes[a].tasks && a in ws[i + 1].nodes && u in ws[i + 1].nodes[a].tasks
    ensures var node, phase := ws[i].nodes[a], ws[i + 1].nodes[a].tasks[u].phase;
      if node.tasks[u].remote !in node.shared.peers then phase.Looping?
      else
        && phase.Writing? && phase.senderVv == phase.delta.vv == node.shared.doc.vv
        && forall v :: v in phase.delta.writes <==>
             v in node.shared.doc.writes
             && v.dot.counter > At(node.shared.peers[node.tasks[u].remote].lastVv, v.dot.replica)
  {
    assert Enabled(ws[i], rule, acts[i]);
    NodeStays(ws[i], rule, acts[i], a);
    TasksAfter(rule, ws, acts, i, a, u);
  }

  lemma NodeStays(w: World, rule: Rule, act: Action, a: NodeId)
    requires Enabled(w, rule, act) && a in w.nodes
    ensures a in Apply(w, rule, act).nodes
  {
  }

  /**
   A sync's vector is remembered, in every run: after node `a` merges a sync of a node that it has the handle of, the
   handle has exactly the sync's vector, and a delta read for the peer then holds nothing which that vector covers.
   */
  lemma SyncRemembered(rule: Rule, ws: seq<World>, acts: seq<Action>, i: nat, a: NodeId, n: NodeId)
    requires Lawful(rule) && IsRun(rule, ws, acts) && i < |acts| && a in ws[i].nodes && n in ws[i].nodes[a].shared.peers
    requires acts[i].Deliver? && Waiting(ws[i], acts[i].t)
    requires Owner(ws[i], acts[i].t) == a && Far(ws[i], acts[i].t) == n
    ensures a in ws[i + 1].nodes && Head(ws[i], acts[i]).MembershipSync?
    ensures var before, after := ws[i].nodes[a].shared.peers, ws[i + 1].nodes[a].shared.peers;
      && n in after && after[n].lastVv == Head(ws[i], acts[i]).senderVv
      && after[n].addr == before[n].addr && after[n].task == before[n].task
      && forall v :: v in DeltaSince(DocOf(ws[i + 1], a), after[n].lastVv).writes ==>
           v.dot.counter > At(Head(ws[i], acts[i]).senderVv, v.dot.replica)
    ensures forall m :: m != n ==>
      && (m in ws[i + 1].nodes[a].shared.peers <==> m in ws[i].nodes[a].shared.peers)
      && (m in ws[i].nodes[a].shared.peers ==>
            ws[i + 1].nodes[a].shared.peers[m] == ws[i].nodes[a].shared.peers[m])
  {
    assert Enabled(ws[i], rule, acts[i]);
    HandlesAfter(rule, ws, acts, i, a, n);
    forall m | m != n
      ensures m in ws[i + 1].nodes[a].shared.peers <==> m in ws[i].nodes[a].shared.peers
      ensures m in ws[i].nodes[a].shared.peers ==>
        ws[i + 1].nodes[a].shared.peers[m] == ws[i].nodes[a].shared.peers[m]
    {
      HandlesAfter(rule, ws, acts, i, a, m);
    }
  }
}
