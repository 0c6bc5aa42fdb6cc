/**
 A session is never stuck: from any reachable world the two ends of a connection can finish what they are at,
 take a gossip tick, and have it merged by the peer, and so any connected group of nodes can agree.
 */
module SyncRound {
  import opened Causality
  import opened Document
  import opened Membership
  import opened Replication
  import opened Daemon
  import opened Sessions
  import opened Cluster
  import opened ClusterInvariant
  import opened Delivery
  import opened Convergence

  lemma {:induction false} Enumerate<T>(s: set<T>) returns (q: seq<T>)
    ensures forall x :: x in q <==> x in s
    ensures forall i, j :: 0 <= i < j < |q| ==> q[i] != q[j]
    decreases s
  {
    if x :| x in s {
      q := Enumerate(s - {x});
      q := q + [x];
    } else {
      q := [];
    }
  }

  /** Any two member maps have a diff. */
  lemma SomeDiff(before: map<NodeId, string>, after: map<NodeId, string>) returns (changes: seq<MembershipChange>)
    ensures IsDiff(before, after, changes)
  {
    changes := Enumerate((set n | n in after && n !in before :: Daemon.Joined(after, n))
                         + (set n | n in before && n !in after :: Daemon.Left(before, n)));
  }

  // -- What the two ends of a connection do -------------------------------------------------------

  /** The session of a task is not over. */
  predicate Alive(p: Phase) {
    !p.Ended? && !p.Cleaned? && !p.Leaked?
  }

  predicate InSession(w: World, t: TaskId) {
    Running(w, t) && Alive(PhaseOf(w, t))
  }

  function PhaseOf(w: World, t: TaskId): Phase
    requires Running(w, t)
  {
    w.nodes[Owner(w, t)].tasks[t].phase
  }

  /** Both ends of the connection of `t` are in session, and `t` has the handle of its peer. */
  predicate Connected(w: World, t: TaskId) {
    InSession(w, t) && InSession(w, Other(t)) && Owns(w.nodes[Owner(w, t)], t)
  }

  /** A step of one end of connection `conn` that goes on with the session, or a gossip tick of its node. */
  predicate Exchange(w: World, act: Action, conn: nat) {
    match act
    case Refuse(t) => t.conn == conn
    case SendAck(t, _) => t.conn == conn
    case SendSync(t) => t.conn == conn
    case Deliver(t, _) => t.conn == conn
    case Local(a, step) =>
      (step.ReadFull? && step.task.conn == conn)
      || (step.Tick? && conn in w.ends && (a == w.ends[conn].initiator || a == w.ends[conn].responder))
      || (step.Take? && step.task.conn == conn) || (step.ReadDelta? && step.task.conn == conn)
    case _ => false
  }

  /** What such steps leave in place. */
  ghost predicate Keeps(w: World, w': World) {
    && w'.ends == w.ends && w'.nodes.Keys == w.nodes.Keys && w'.wires.Keys == w.wires.Keys
    && forall t :: Running(w, t) ==> KeepsTask(w, w', t)
  }

  predicate KeepsTask(w: World, w': World, t: TaskId)
    requires Running(w, t)
  {
    && Running(w', t) && Owner(w', t) == Owner(w, t)
    && (Alive(PhaseOf(w, t)) ==> Alive(PhaseOf(w', t)))
    && (Owns(w.nodes[Owner(w, t)], t) ==> Owns(w'.nodes[Owner(w, t)], t))
  }

  lemma StepKeeps(node: Node, rule: Rule, step: Step, t: TaskId)
    requires Can(node, rule, step) && t in node.tasks
    requires step.WriteAck? || step.WriteSync? || step.Merge? || step.ReadFull? || step.Tick? || step.Take?
             || step.ReadDelta?
    ensures var node' := Do(node, rule, step);
      && t in node'.tasks && (Alive(node.tasks[t].phase) ==> Alive(node'.tasks[t].phase))
      && (Owns(node, t) ==> Owns(node', t))
  {
  }

  lemma ExchangeKeeps(w: World, rule: Rule, act: Action, conn: nat)
    requires Enabled(w, rule, act) && Exchange(w, act, conn)
    ensures Keeps(w, Apply(w, rule, act))
  {
    var w' := Apply(w, rule, act);
    if HasStep(act) {
      StepActionMovesOne(w, rule, act);
      forall t | Running(w, t)
        ensures KeepsTask(w, w', t)
      {
        if Owner(w, t) == Actor(w, act) {
          StepKeeps(w.nodes[Actor(w, act)], rule, StepOf(w, act), t);
        }
      }
    }
  }

  // -- Longer runs ----------------------------------------------------------------------------------

  /** The longer run goes on with nothing but steps of connection `conn`. */
  ghost predicate Goes(rule: Rule, ws: seq<World>, acts: seq<Action>, ws': seq<World>, acts': seq<Action>, conn: nat) {
    && IsRun(rule, ws, acts) && IsRun(rule, ws', acts') && ws <= ws' && acts <= acts'
    && (forall k :: |acts| <= k < |acts'| ==> Exchange(ws'[k], acts'[k], conn) && ws'[k].ends == ws[|acts|].ends)
    && Keeps(ws[|acts|], ws'[|acts'|])
  }

  lemma OneMore(rule: Rule, ws: seq<World>, acts: seq<Action>, act: Action, w: World)
    returns (ws': seq<World>, acts': seq<Action>)
    requires IsRun(rule, ws, acts) && Enabled(ws[|acts|], rule, act) && w == Apply(ws[|acts|], rule, act)
    ensures IsRun(rule, ws', acts') && ws' == ws + [w] && acts' == acts + [act]
  {
    ws', acts' := ws + [w], acts + [act];
    forall i | 0 <= i < |acts'|
      ensures Enabled(ws'[i], rule, acts'[i]) && ws'[i + 1] == Apply(ws'[i], rule, acts'[i])
    {
      assert ws'[i] == ws[i];
      assert i < |acts| ==> ws'[i + 1] == ws[i + 1] && acts'[i] == acts[i];
    }
  }

  lemma KeepsTransitive(w: World, w1: World, w2: World)
    requires Keeps(w, w1) && Keeps(w1, w2)
    ensures Keeps(w, w2)
  {
    forall t | Running(w, t) ensures KeepsTask(w, w2, t) {
      assert KeepsTask(w, w1, t) && KeepsTask(w1, w2, t);
    }
  }

  lemma GoOn(rule: Rule, ws: seq<World>, acts: seq<Action>, conn: nat, act: Action)
    returns (ws': seq<World>, acts': seq<Action>)
    requires IsRun(rule, ws, acts) && Enabled(ws[|acts|], rule, act) && Exchange(ws[|acts|], act, conn)
    ensures Goes(rule, ws, acts, ws', acts', conn) && acts' == acts + [act]
    ensures ws'[|acts'|] == Apply(ws[|acts|], rule, act)
  {
    ws', acts' := OneMore(rule, ws, acts, act, Apply(ws[|acts|], rule, act));
    ExchangeKeeps(ws[|acts|], rule, act, conn);
  }

  lemma GoesTransitive(rule: Rule, ws: seq<World>, acts: seq<Action>, ws1: seq<World>, acts1: seq<Action>,
                       ws2: seq<World>, acts2: seq<Action>, conn: nat)
    requires Goes(rule, ws, acts, ws1, acts1, conn) && Goes(rule, ws1, acts1, ws2, acts2, conn)
    ensures Goes(rule, ws, acts, ws2, acts2, conn)
  {
    forall k | |acts| <= k < |acts2| ensures Exchange(ws2[k], acts2[k], conn) && ws2[k].ends == ws[|acts|].ends {
      assert k < |acts1| ==> acts2[k] == acts1[k] && ws2[k] == ws1[k];
    }
    KeepsTransitive(ws[|acts|], ws1[|acts1|], ws2[|acts2|]);
  }

  // -- Into the loop --------------------------------------------------------------------------------

  /** How many steps a task in session is away from waiting in its loop. */
  function Distance(p: Phase): nat {
    match p
    case Acking(_) => 3
    case Opening => 2
    case Woken => 2
    case Writing(_, _, _) => 1
    case _ => 0
  }

  /** The step that a task in session takes next on its way to its loop. */
  function NextOf(w: World, t: TaskId): Action
    requires Running(w, t)
  {
    var a := Owner(w, t);
    match PhaseOf(w, t)
    case Acking(_) => SendAck(t, "")
    case Opening => Local(a, ReadFull(t))
    case Woken => Local(a, ReadDelta(t))
    case _ => SendSync(t)
  }

  /** The phases of all other tasks are as they were. */
  ghost predicate OthersStay(w: World, w': World, t: TaskId) {
    forall u :: u != t && Running(w, u) ==> Running(w', u) && PhaseOf(w', u) == PhaseOf(w, u)
  }

  /** Node `a` has moved on in its tasks, and nothing else has happened to any node. */
  predicate OnlyTasks(w: World, w': World, a: NodeId) {
    a in w.nodes && a in w'.nodes && w'.nodes == w.nodes[a := w.nodes[a].(tasks := w'.nodes[a].tasks)]
  }

  lemma NextPhase(node: Node, rule: Rule, step: Step, t: TaskId)
    requires t in node.tasks && Can(node, rule, step)
    requires step == WriteAck(t) || step == ReadFull(t) || step == ReadDelta(t) || step == WriteSync(t)
    ensures var after := Do(node, rule, step);
      && t in after.tasks && after == node.(tasks := node.tasks[t := after.tasks[t]])
      && Alive(after.tasks[t].phase) && Distance(after.tasks[t].phase) < Distance(node.tasks[t].phase)
  {
  }

  lemma NextIsEnabled(w: World, rule: Rule, t: TaskId)
    requires InSession(w, t) && !PhaseOf(w, t).Looping?
    ensures var act := NextOf(w, t);
      && Enabled(w, rule, act) && Exchange(w, act, t.conn) && HasStep(act) && Actor(w, act) == Owner(w, t)
      && StepOf(w, act) in {WriteAck(t), ReadFull(t), ReadDelta(t), WriteSync(t)}
  {
  }

  lemma NextStep(w: World, rule: Rule, t: TaskId)
    requires InSession(w, t) && !PhaseOf(w, t).Looping?
    ensures Enabled(w, rule, NextOf(w, t)) && Exchange(w, NextOf(w, t), t.conn)
    ensures var w' := Apply(w, rule, NextOf(w, t));
      && InSession(w', t) && Distance(PhaseOf(w', t)) < Distance(PhaseOf(w, t))
      && OthersStay(w, w', t) && OnlyTasks(w, w', Owner(w, t))
  {
    NextIsEnabled(w, rule, t);
    StepActionMovesOne(w, rule, NextOf(w, t));
    NextPhase(w.nodes[Owner(w, t)], rule, StepOf(w, NextOf(w, t)), t);
  }

  /** A task in session gets to its loop by its own steps. */
  lemma {:induction false} Settle(rule: Rule, ws: seq<World>, acts: seq<Action>, t: TaskId)
    returns (ws': seq<World>, acts': seq<Action>)
    requires IsRun(rule, ws, acts) && InSession(ws[|acts|], t)
    ensures Goes(rule, ws, acts, ws', acts', t.conn)
    ensures InSession(ws'[|acts'|], t) && PhaseOf(ws'[|acts'|], t).Looping?
    ensures OthersStay(ws[|acts|], ws'[|acts'|], t) && OnlyTasks(ws[|acts|], ws'[|acts'|], Owner(ws[|acts|], t))
    decreases Distance(PhaseOf(ws[|acts|], t))
  {
    var w := ws[|acts|];
    if PhaseOf(w, t).Looping? {
      ws', acts' := ws, acts;
    } else {
      NextStep(w, rule, t);
      var ws1, acts1 := GoOn(rule, ws, acts, t.conn, NextOf(w, t));
      ws', acts' := Settle(rule, ws1, acts1, t);
      GoesTransitive(rule, ws, acts, ws1, acts1, ws', acts', t.conn);
    }
  }

  lemma SettleBoth(rule: Rule, ws: seq<World>, acts: seq<Action>, t: TaskId)
    returns (ws': seq<World>, acts': seq<Action>)
    requires IsRun(rule, ws, acts) && InSession(ws[|acts|], t) && InSession(ws[|acts|], Other(t))
    ensures Goes(rule, ws, acts, ws', acts', t.conn)
    ensures InSession(ws'[|acts'|], t) && PhaseOf(ws'[|acts'|], t).Looping?
    ensures InSession(ws'[|acts'|], Other(t)) && PhaseOf(ws'[|acts'|], Other(t)).Looping?
  {
    var ws1, acts1 := Settle(rule, ws, acts, Other(t));
    ws', acts' := Settle(rule, ws1, acts1, t);
    GoesTransitive(rule, ws, acts, ws1, acts1, ws', acts', t.conn);
  }

  // -- From the tick to the wire --------------------------------------------------------------------

  lemma TickPeer(w: World, rule: Rule, t: TaskId)
    requires Connected(w, t) && PhaseOf(w, t).Looping?
    ensures var act := Local(Owner(w, t), Tick(w.nodes[Owner(w, t)].tasks[t].remote));
      && Enabled(w, rule, act)
      && var w' := Apply(w, rule, act);
      && w'.wires == w.wires
      && Running(w', t) && PhaseOf(w', t).Looping? && t in w'.nodes[Owner(w, t)].shared.tokens
      && (Running(w, Other(t)) ==> Running(w', Other(t)) && PhaseOf(w', Other(t)) == PhaseOf(w, Other(t)))
  {
  }

  lemma TakeToken(w: World, rule: Rule, t: TaskId)
    requires Running(w, t) && PhaseOf(w, t).Looping? && t in w.nodes[Owner(w, t)].shared.tokens
    ensures var act := Local(Owner(w, t), Take(t));
      && Enabled(w, rule, act)
      && var w' := Apply(w, rule, act);
      && w'.wires == w.wires && Running(w', t) && PhaseOf(w', t).Woken?
      && (Running(w, Other(t)) ==> Running(w', Other(t)) && PhaseOf(w', Other(t)) == PhaseOf(w, Other(t)))
  {
  }

  lemma ReadDocument(w: World, rule: Rule, t: TaskId)
    requires Running(w, t) && PhaseOf(w, t).Woken? && Owns(w.nodes[Owner(w, t)], t)
    ensures var act := Local(Owner(w, t), ReadDelta(t));
      && Enabled(w, rule, act)
      && var w' := Apply(w, rule, act);
      && w'.wires == w.wires && Running(w', t) && PhaseOf(w', t).Writing?
      && (Running(w, Other(t)) ==> Running(w', Other(t)) && PhaseOf(w', Other(t)) == PhaseOf(w, Other(t)))
  {
  }

  lemma WriteIt(w: World, rule: Rule, t: TaskId)
    requires Running(w, t) && PhaseOf(w, t).Writing?
    ensures Enabled(w, rule, SendSync(t))
    ensures var w', phase := Apply(w, rule, SendSync(t)), PhaseOf(w, t);
      && Other(t) in w'.wires
      && w'.wires[Other(t)] == w.wires[Other(t)] + [MembershipSync(phase.delta, phase.senderVv)]
      && (Running(w, Other(t)) ==> Running(w', Other(t)) && PhaseOf(w', Other(t)) == PhaseOf(w, Other(t)))
  {
  }

  /** A tick leads to the document being read. */
  lemma Read(rule: Rule, ws: seq<World>, acts: seq<Action>, t: TaskId)
    returns (ws': seq<World>, acts': seq<Action>)
    requires IsRun(rule, ws, acts) && Connected(ws[|acts|], t)
    requires PhaseOf(ws[|acts|], t).Looping? && PhaseOf(ws[|acts|], Other(t)).Looping?
    ensures Goes(rule, ws, acts, ws', acts', t.conn)
    ensures var w := ws'[|acts'|];
      && Connected(w, t) && PhaseOf(w, t).Woken? && PhaseOf(w, Other(t)).Looping?
      && w.wires == ws[|acts|].wires
  {
    var a := Owner(ws[|acts|], t);
    TickPeer(ws[|acts|], rule, t);
    var ws1, acts1 := GoOn(rule, ws, acts, t.conn, Local(a, Tick(ws[|acts|].nodes[a].tasks[t].remote)));
    TakeToken(ws1[|acts1|], rule, t);
    ws', acts' := GoOn(rule, ws1, acts1, t.conn, Local(a, Take(t)));
    GoesTransitive(rule, ws, acts, ws1, acts1, ws', acts', t.conn);
  }

  /** It ends up in a sync on the wire. */
  lemma Send(rule: Rule, ws: seq<World>, acts: seq<Action>, t: TaskId)
    returns (ws': seq<World>, acts': seq<Action>)
    requires IsRun(rule, ws, acts) && Connected(ws[|acts|], t)
    requires PhaseOf(ws[|acts|], t).Woken? && PhaseOf(ws[|acts|], Other(t)).Looping?
    requires ws[|acts|].wires[Other(t)] == []
    ensures Goes(rule, ws, acts, ws', acts', t.conn)
    ensures PhaseOf(ws'[|acts'|], Other(t)).Looping?
    ensures var wire := ws'[|acts'|].wires[Other(t)]; |wire| == 1 && wire[0].MembershipSync?
  {
    ReadDocument(ws[|acts|], rule, t);
    var ws1, acts1 := GoOn(rule, ws, acts, t.conn, Local(Owner(ws[|acts|], t), ReadDelta(t)));
    WriteIt(ws1[|acts1|], rule, t);
    ws', acts' := GoOn(rule, ws1, acts1, t.conn, SendSync(t));
    GoesTransitive(rule, ws, acts, ws1, acts1, ws', acts', t.conn);
  }

  // -- From the wire to the document ----------------------------------------------------------------

  lemma DeliverIt(w: World, rule: Rule, t: TaskId) returns (changes: seq<MembershipChange>)
    requires Running(w, t) && PhaseOf(w, t).Looping? && Waiting(w, t) && w.wires[t][0].MembershipSync?
    ensures Enabled(w, rule, Deliver(t, changes))
    ensures var w' := Apply(w, rule, Deliver(t, changes));
      && Running(w', t) && PhaseOf(w', t).Looping? && w'.wires[t] == w.wires[t][1..]
      && (Running(w, Other(t)) ==> Running(w', Other(t)) && PhaseOf(w', Other(t)) == PhaseOf(w, Other(t)))
  {
    var doc := DocOf(w, Owner(w, t));
    changes := SomeDiff(MemberIds(doc, rule), MemberIds(MergeDelta(doc, w.wires[t][0].delta), rule));
  }

  /** A task in its loop takes the next message: it merges a sync and ignores anything else. */
  lemma Receive(rule: Rule, ws: seq<World>, acts: seq<Action>, t: TaskId)
    returns (ws': seq<World>, acts': seq<Action>)
    requires IsRun(rule, ws, acts) && Running(ws[|acts|], t) && PhaseOf(ws[|acts|], t).Looping?
    requires Waiting(ws[|acts|], t)
    ensures Goes(rule, ws, acts, ws', acts', t.conn) && |acts'| == |acts| + 1
    ensures Running(ws'[|acts'|], t) && PhaseOf(ws'[|acts'|], t).Looping?
    ensures Running(ws[|acts|], Other(t)) ==>
      Running(ws'[|acts'|], Other(t)) && PhaseOf(ws'[|acts'|], Other(t)) == PhaseOf(ws[|acts|], Other(t))
    ensures t in ws'[|acts'|].wires && ws'[|acts'|].wires[t] == ws[|acts|].wires[t][1..]
    ensures ws[|acts|].wires[t][0].MembershipSync? ==> acts'[|acts|].Deliver? && acts'[|acts|].t == t
  {
    var w := ws[|acts|];
    if w.wires[t][0].MembershipSync? {
      var changes := DeliverIt(w, rule, t);
      ws', acts' := GoOn(rule, ws, acts, t.conn, Deliver(t, changes));
    } else {
      ws', acts' := GoOn(rule, ws, acts, t.conn, Refuse(t));
    }
  }

  /** It works off its wire. */
  lemma {:induction false} Drain(rule: Rule, ws: seq<World>, acts: seq<Action>, t: TaskId)
    returns (ws': seq<World>, acts': seq<Action>)
    requires IsRun(rule, ws, acts) && Running(ws[|acts|], t) && PhaseOf(ws[|acts|], t).Looping?
    requires t in ws[|acts|].wires && Running(ws[|acts|], Other(t))
    ensures Goes(rule, ws, acts, ws', acts', t.conn)
    ensures Running(ws'[|acts'|], t) && PhaseOf(ws'[|acts'|], t).Looping?
    ensures Running(ws'[|acts'|], Other(t)) && PhaseOf(ws'[|acts'|], Other(t)) == PhaseOf(ws[|acts|], Other(t))
    ensures t in ws'[|acts'|].wires && ws'[|acts'|].wires[t] == []
    decreases |ws[|acts|].wires[t]|
  {
    if ws[|acts|].wires[t] == [] {
      ws', acts' := ws, acts;
    } else {
      var ws1, acts1 := Receive(rule, ws, acts, t);
      ws', acts' := Drain(rule, ws1, acts1, t);
      GoesTransitive(rule, ws, acts, ws1, acts1, ws', acts', t.conn);
    }
  }

  /** Both ends get to where nothing is pending from `t` to its peer and both are in their loops. */
  lemma Clear(rule: Rule, ws: seq<World>, acts: seq<Action>, t: TaskId)
    returns (ws': seq<World>, acts': seq<Action>)
    requires IsRun(rule, ws, acts) && Connected(ws[|acts|], t)
    ensures Goes(rule, ws, acts, ws', acts', t.conn)
    ensures var w := ws'[|acts'|];
      && Connected(w, t) && PhaseOf(w, t).Looping? && PhaseOf(w, Other(t)).Looping?
      && w.wires[Other(t)] == [] && Pending(w, Other(t)) == 0
  {
    var ws1, acts1 := SettleBoth(rule, ws, acts, t);
    ws', acts' := Drain(rule, ws1, acts1, Other(t));
    GoesTransitive(rule, ws, acts, ws1, acts1, ws', acts', t.conn);
  }

  /** From there a tick leads to a sync that the peer merges, and that was read no earlier. */
  lemma Exchanged(rule: Rule, ws: seq<World>, acts: seq<Action>, t: TaskId)
    returns (ws': seq<World>, acts': seq<Action>)
    requires IsRun(rule, ws, acts) && Connected(ws[|acts|], t)
    requires PhaseOf(ws[|acts|], t).Looping? && PhaseOf(ws[|acts|], Other(t)).Looping?
    requires ws[|acts|].wires[Other(t)] == []
    ensures Goes(rule, ws, acts, ws', acts', t.conn) && |acts| < |acts'|
    ensures var m := |acts'| - 1;
      && acts'[m].Deliver? && acts'[m].t == Other(t) && Waiting(ws'[m], Other(t)) && ws'[m].ends == ws[|acts|].ends
  {
    var ws1, acts1 := Read(rule, ws, acts, t);
    var ws2, acts2 := Send(rule, ws1, acts1, t);
    GoesTransitive(rule, ws, acts, ws1, acts1, ws2, acts2, t.conn);
    ws', acts' := Receive(rule, ws2, acts2, Other(t));
    GoesTransitive(rule, ws, acts, ws2, acts2, ws', acts', t.conn);
  }

  /** From any reachable world, a connection can carry all its one end knows to the other. */
  lemma Transfer(rule: Rule, ws: seq<World>, acts: seq<Action>, t: TaskId)
    returns (ws': seq<World>, acts': seq<Action>, h: Hop)
    requires IsRun(rule, ws, acts) && Connected(ws[|acts|], t)
    ensures Goes(rule, ws, acts, ws', acts', t.conn) && IsHop(ws', acts', h)
    ensures |acts| <= h.read && h.merged + 1 == |acts'|
    ensures h.sender == Owner(ws[|acts|], t) && h.receiver == Owner(ws[|acts|], Other(t))
  {
    var ws1, acts1 := Clear(rule, ws, acts, t);
    ws', acts' := Exchanged(rule, ws1, acts1, t);
    GoesTransitive(rule, ws, acts, ws1, acts1, ws', acts', t.conn);
    h := Hop(Owner(ws[|acts|], t), |acts1|, Owner(ws[|acts|], Other(t)), |acts'| - 1);
    StaleShrinks(ws', acts', Other(t), h.read, h.merged);
    assert ws'[h.read] == ws1[|acts1|];
  }

  /**
   No session is stuck: from any reachable world, in whatever phases the two ends of a live connection are
   and whatever is under way between them, their own steps after a gossip tick lead to the peer covering the
   vector of a sender that has the peer's handle.
   */
  lemma TickReachesPeer(rule: Rule, ws: seq<World>, acts: seq<Action>, t: TaskId)
    returns (ws': seq<World>, acts': seq<Action>)
    requires Lawful(rule) && IsRun(rule, ws, acts) && Connected(ws[|acts|], t)
    ensures Goes(rule, ws, acts, ws', acts', t.conn)
    ensures var w, w' := ws[|acts|], ws'[|acts'|];
      var a, b := Owner(w, t), Owner(w, Other(t));
      b in w'.nodes && Leq(DocOf(w, a).vv, DocOf(w', b).vv)
  {
    var h;
    ws', acts', h := Transfer(rule, ws, acts, t);
    VectorsGrow(rule, ws', acts', |acts|, h.read, h.sender);
    HopCarries(rule, ws', acts', h);
    LeqTransitive(DocOf(ws[|acts|], h.sender).vv, DocOf(ws'[h.read], h.sender).vv,
                  DocOf(ws'[h.merged + 1], h.receiver).vv);
  }
}
