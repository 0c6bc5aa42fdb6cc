/**
 What an action does, seen from the parts of a daemon instead of from its steps: for every handle, session,
 wake-up token, event log, document and wire, exactly which actions change it, and how.
 */
module Effects {
  import opened Causality
  import opened Document
  import opened Membership
  import opened Replication
  import opened Daemon
  import opened Sessions
  import opened Cluster
  import opened ClusterInvariant

  /** The message that an action consumes. */
  function Head(w: World, act: Action): Message
    requires (act.Answer? || act.Conclude? || act.Deliver?) && Waiting(w, act.t)
  {
    w.wires[act.t][0]
  }

  // -- Handles ------------------------------------------------------------------------------------

  /** The action makes node `a` register a session with node `n`, whose handshake or acknowledgement is waiting. */
  predicate Registers(w: World, act: Action, a: NodeId, n: NodeId) {
    && (act.Answer? || act.Conclude?) && Waiting(w, act.t) && Owner(w, act.t) == a
    && !Head(w, act).MembershipSync? && Head(w, act).nodeId == n
  }

  /** The action makes node `a` merge a sync of node `n`. */
  predicate Hears(w: World, act: Action, a: NodeId, n: NodeId) {
    act.Deliver? && Waiting(w, act.t) && Owner(w, act.t) == a && Far(w, act.t) == n && Head(w, act).MembershipSync?
  }

  /** The action makes node `a` drop the handle `h` of node `n`: after a session with it, or on a leave command. */
  predicate Drops(w: World, act: Action, a: NodeId, n: NodeId, h: Handle)
    requires a in w.nodes
  {
    && act.Local? && act.a == a
    && ((act.step.Finish? && act.step.task in w.nodes[a].tasks && w.nodes[a].tasks[act.step.task].remote == n)
        || (act.step.LeaveAddr? && act.step.addr == h.addr))
  }

  ghost predicate HandleMoves(w: World, act: Action, a: NodeId, n: NodeId,
                              before: map<NodeId, Handle>, after: map<NodeId, Handle>)
    requires a in w.nodes
  {
    if Registers(w, act, a, n) then
      var m := Head(w, act);
      && n !in before && n in after
      && after[n].addr == m.addr && after[n].task == act.t
      && after[n].lastVv == if m.HandshakeAck? then m.vv else map[]
    else if n !in before || Drops(w, act, a, n, before[n]) then n !in after
    else
      && n in after && after[n].addr == before[n].addr && after[n].task == before[n].task
      && after[n].lastVv == if Hears(w, act, a, n) then Head(w, act).senderVv else before[n].lastVv
  }

  /** The same for a step of the node itself. */
  ghost predicate StepHandle(node: Node, step: Step, n: NodeId, after: map<NodeId, Handle>)
    requires step.Merge? || step.Finish? ==> step.task in node.tasks
  {
    var before := node.shared.peers;
    if (step.Accept? || step.Adopt?) && step.remote == n then
      && n !in before && n in after
      && after[n].addr == step.addr && after[n].task == step.task
      && after[n].lastVv == if step.Adopt? then step.remoteVv else map[]
    else if n !in before || (step.Finish? && node.tasks[step.task].remote == n)
            || (step.LeaveAddr? && step.addr == before[n].addr) then n !in after
    else
      && n in after && after[n].addr == before[n].addr && after[n].task == before[n].task
      && after[n].lastVv
         == if step.Merge? && node.tasks[step.task].remote == n then step.senderVv else before[n].lastVv
  }

  lemma HandleAfterStep(node: Node, rule: Rule, step: Step, n: NodeId)
    requires Can(node, rule, step)
    ensures StepHandle(node, step, n, Do(node, rule, step).shared.peers)
  {
  }

  /** How the action and its step correspond, as far as the handle of `n` is concerned. */
  lemma StepOfHandle(w: World, act: Action, n: NodeId)
    requires Wired(w) && Shapely(w, act) && HasStep(act)
    ensures var a, step := Actor(w, act), StepOf(w, act);
      && (Registers(w, act, a, n) <==> (step.Accept? || step.Adopt?) && step.remote == n)
      && (step.Accept? || step.Adopt? ==>
            && Waiting(w, act.t) && step.addr == Head(w, act).addr && step.task == act.t
            && (if step.Adopt? then Head(w, act).HandshakeAck? && step.remoteVv == Head(w, act).vv
                else Head(w, act).Handshake?))
      && (step.Merge? <==> act.Deliver?)
      && (step.Merge? ==>
            step.task == act.t && Head(w, act).MembershipSync? && step.senderVv == Head(w, act).senderVv)
      && (step.Finish? || step.LeaveAddr? ==> act == Local(a, step))
  {
  }

  lemma RemoteOfTask(w: World, a: NodeId, t: TaskId)
    requires Wired(w) && a in w.nodes && t in w.nodes[a].tasks
    ensures t.conn in w.ends && Owner(w, t) == a && w.nodes[a].tasks[t].remote == Far(w, t)
  {
    assert GoodNode(w, w.history, DocsOf(w), a, w.nodes[a]);
    assert GoodTask(w, w.history, DocsOf(w), a, t, w.nodes[a].tasks[t]);
  }

  lemma ActorHandle(w: World, rule: Rule, act: Action, n: NodeId, after: map<NodeId, Handle>)
    requires Wired(w) && Shapely(w, act) && HasStep(act) && Can(w.nodes[Actor(w, act)], rule, StepOf(w, act))
    requires StepHandle(w.nodes[Actor(w, act)], StepOf(w, act), n, after)
    ensures HandleMoves(w, act, Actor(w, act), n, w.nodes[Actor(w, act)].shared.peers, after)
  {
    StepOfHandle(w, act, n);
    if act.Deliver? {
      RemoteOfTask(w, Actor(w, act), act.t);
    }
  }

  lemma ActionHandles(w: World, rule: Rule, act: Action, a: NodeId, n: NodeId)
    requires Wired(w) && Enabled(w, rule, act) && a in w.nodes
    ensures var w' := Apply(w, rule, act);
      a in w'.nodes && HandleMoves(w, act, a, n, w.nodes[a].shared.peers, w'.nodes[a].shared.peers)
  {
    if HasStep(act) && Actor(w, act) == a {
      StepActionMovesOne(w, rule, act);
      HandleAfterStep(w.nodes[a], rule, StepOf(w, act), n);
      ActorHandle(w, rule, act, n, Do(w.nodes[a], rule, StepOf(w, act)).shared.peers);
    } else {
      OtherUnmoved(w, rule, act);
      NotActor(w, act, a, n);
    }
  }

  lemma NotActor(w: World, act: Action, a: NodeId, n: NodeId)
    requires Shapely(w, act) && a in w.nodes && (HasStep(act) ==> Actor(w, act) != a)
    ensures HandleMoves(w, act, a, n, w.nodes[a].shared.peers, w.nodes[a].shared.peers)
  {
  }

  /**
   The life of a handle, in every run: it comes with the address of a handshake or an acknowledgement from its node,
   with no vector or the acknowledged one; after every sync of the node it has that sync's vector; and it goes with
   a cleanup for the node or a leave for its address. No other action touches it.
   */
  lemma HandlesAfter(rule: Rule, ws: seq<World>, acts: seq<Action>, i: nat, a: NodeId, n: NodeId)
    requires Lawful(rule) && IsRun(rule, ws, acts) && i < |acts| && a in ws[i].nodes
    ensures a in ws[i + 1].nodes
    ensures HandleMoves(ws[i], acts[i], a, n, ws[i].nodes[a].shared.peers, ws[i + 1].nodes[a].shared.peers)
  {
    assert Enabled(ws[i], rule, acts[i]);
    assert Wired(ws[i]) by {
      RunInv(rule, ws, acts, i);
    }
    ActionHandles(ws[i], rule, acts[i], a, n);
  }

  // -- Sessions -----------------------------------------------------------------------------------

  /** Every action and the step it makes its actor take. */
  lemma StepOfAction(w: World, act: Action)
    requires Shapely(w, act) && HasStep(act)
    ensures Actor(w, act) == if act.Local? then act.a else Owner(w, act.t)
    ensures StepOf(w, act) == match act
      case Answer(t) => Accept(t, Head(w, act).nodeId, Head(w, act).addr)
      case Conclude(t) => Adopt(t, Head(w, act).nodeId, Head(w, act).addr, Head(w, act).vv)
      case SendAck(t, _) => WriteAck(t)
      case SendSync(t) => WriteSync(t)
      case Deliver(t, changes) => Merge(t, Head(w, act).delta, Head(w, act).senderVv, changes)
      case Local(_, step) => step
    ensures act.Answer? ==> Head(w, act).Handshake?
    ensures act.Conclude? ==> Head(w, act).HandshakeAck?
    ensures act.Local? ==> Internal(act.step)
  {
  }

  /** The phase of a task after a step of its node. */
  ghost predicate StepPhase(node: Node, step: Step, u: TaskId, after: Phase)
    requires u in node.tasks
  {
    var task, doc, peers := node.tasks[u], node.shared.doc, node.shared.peers;
    if step == WriteAck(u) then after.Opening?
    else if step == WriteSync(u) then after.Looping?
    else if step == ReadFull(u) then
      && after.Writing? && after.initial && after.senderVv == after.delta.vv == doc.vv
      && after.delta.writes == doc.writes
    else if step == ReadDelta(u) then
      if task.remote !in peers then after.Looping?
      else
        && after.Writing? && !after.initial && after.senderVv == after.delta.vv == doc.vv
        && forall v :: v in after.delta.writes <==>
             v in doc.writes && v.dot.counter > At(peers[task.remote].lastVv, v.dot.replica)
    else if step == Take(u) then after.Woken?
    else if step == Exit(u) then after.Ended?
    else if step.Finish? && step.task == u then after.Cleaned?
    else if step == Fail(u) then after.Leaked?
    else after == task.phase
  }

  lemma PhaseAfterStep(node: Node, rule: Rule, step: Step, u: TaskId)
    requires Can(node, rule, step) && ValidDoc(node.shared.doc) && u in node.tasks
    ensures u in Do(node, rule, step).tasks && StepPhase(node, step, u, Do(node, rule, step).tasks[u].phase)
  {
    DeltaSinceSplits(node.shared.doc, EMPTY);
  }

  /** Task `u` after a step of its node: registered, moved to another phase, or as before. */
  ghost predicate StepTask(node: Node, step: Step, u: TaskId, after: map<TaskId, Task>) {
    if (step.Accept? || step.Adopt?) && step.task == u then
      && u !in node.tasks && u in after && after[u].remote == step.remote && after[u].addr == step.addr
      && after[u].sent == map[]
      && after[u].phase == if step.Accept? then Acking(node.shared.doc.vv) else Opening
    else if u !in node.tasks then u !in after
    else
      && u in after && after[u].remote == node.tasks[u].remote && after[u].addr == node.tasks[u].addr
      && StepPhase(node, step, u, after[u].phase)
      && after[u].sent == if step == WriteSync(u) && node.tasks[u].phase.Writing? then node.tasks[u].phase.senderVv
                          else node.tasks[u].sent
  }

  lemma TaskAfterStep(node: Node, rule: Rule, step: Step, u: TaskId)
    requires Can(node, rule, step) && ValidDoc(node.shared.doc)
    ensures StepTask(node, step, u, Do(node, rule, step).tasks)
  {
    if u in node.tasks {
      PhaseAfterStep(node, rule, step, u);
    }
  }

  /**
   The order of a session, in every run: it acknowledges what it accepted, reads the whole document, writes what it
   read, and then, in its loop, merges syncs, takes tokens and reads deltas; it cleans up when its loop is over, and a
   write that fails before the loop ends it without.
   */
  lemma SessionOrder(rule: Rule, ws: seq<World>, acts: seq<Action>, i: nat, a: NodeId)
    requires IsRun(rule, ws, acts) && i < |acts| && Shapely(ws[i], acts[i]) && HasStep(acts[i])
    requires Actor(ws[i], acts[i]) == a
    ensures a in ws[i].nodes
    ensures var node, act := ws[i].nodes[a], acts[i];
      && (act.SendAck? ==> act.t in node.tasks && node.tasks[act.t].phase.Acking?)
      && (act.SendSync? ==> act.t in node.tasks && node.tasks[act.t].phase.Writing?)
      && (act.Deliver? ==> act.t in node.tasks && node.tasks[act.t].phase.Looping?)
      && (act.Local? && act.step.ReadFull? ==> act.step.task in node.tasks && node.tasks[act.step.task].phase.Opening?)
      && (act.Local? && act.step.Take? ==>
            && act.step.task in node.tasks && node.tasks[act.step.task].phase.Looping?
            && act.step.task in node.shared.tokens)
      && (act.Local? && act.step.ReadDelta? ==> act.step.task in node.tasks && node.tasks[act.step.task].phase.Woken?)
      && (act.Local? && act.step.Exit? ==>
            && act.step.task in node.tasks
            && var phase := node.tasks[act.step.task].phase; phase.Looping? || (phase.Writing? && !phase.initial))
      && (act.Local? && act.step.Fail? ==>
            && act.step.task in node.tasks
            && var phase := node.tasks[act.step.task].phase;
               phase.Acking? || phase.Opening? || (phase.Writing? && phase.initial))
      && (act.Local? && act.step.Finish? ==> act.step.task in node.tasks && node.tasks[act.step.task].phase.Ended?)
  {
    assert Enabled(ws[i], rule, acts[i]);
  }

  // -- Wake-up tokens -----------------------------------------------------------------------------

  /** The step wakes the session `u`: a tick for its peer, a cleanup after another peer, or the shutdown. */
  ghost predicate Wakes(node: Node, step: Step, u: TaskId)
    requires step.Finish? ==> step.task in node.tasks
  {
    var peers := node.shared.peers;
    || (step.Tick? && step.remote in peers && peers[step.remote].task == u)
    || (step.Finish? && exists n :: n in peers && n != node.tasks[step.task].remote && peers[n].task == u)
    || (step.Stop? && exists n :: n in peers && peers[n].task == u)
  }

  lemma TokenAfterStep(node: Node, rule: Rule, step: Step, u: TaskId)
    requires Can(node, rule, step)
    ensures u in Do(node, rule, step).shared.tokens
      <==> (u in node.shared.tokens && step != Take(u)) || Wakes(node, step, u)
  {
    if step.Finish? {
      var peers := node.shared.peers - {node.tasks[step.task].remote};
      WokenBy(node.shared.tokens, peers, u);
      assert forall n :: n in peers <==> n in node.shared.peers && n != node.tasks[step.task].remote;
    } else if step.Stop? {
      WokenBy(node.shared.tokens, node.shared.peers, u);
    }
  }

  lemma WokenBy(tokens: set<TaskId>, peers: map<NodeId, Handle>, u: TaskId)
    ensures u in tokens + (set n | n in peers :: peers[n].task)
      <==> u in tokens || exists n :: n in peers && peers[n].task == u
  {
    if n :| n in peers && peers[n].task == u {
      assert u in set n | n in peers :: peers[n].task;
    }
  }

  // -- The event log ------------------------------------------------------------------------------

  /** What a step broadcasts: a merge the members that came and went, with their addresses; a cleanup its peer. */
  ghost predicate StepNews(node: Node, rule: Rule, step: Step, news: seq<MembershipChange>)
    requires step.Finish? ==> step.task in node.tasks
  {
    if step.Merge? then
      var before, after := MemberIds(node.shared.doc, rule), MemberIds(MergeDelta(node.shared.doc, step.delta), rule);
      && (forall n, addr :: MembershipChange(NodeJoined, n, addr) in news
            <==> n !in before && n in after && addr == after[n])
      && (forall n, addr :: MembershipChange(NodeLeft, n, addr) in news
            <==> n in before && n !in after && addr == before[n])
      && (forall i, j :: 0 <= i < j < |news| ==> news[i] != news[j])
    else if step.Finish? then
      news == [MembershipChange(NodeLeft, node.tasks[step.task].remote, node.tasks[step.task].addr)]
    else news == []
  }

  lemma NewsOfStep(node: Node, rule: Rule, step: Step)
    requires Can(node, rule, step)
    ensures var before, after := node.shared.events, Do(node, rule, step).shared.events;
      before <= after && StepNews(node, rule, step, after[|before|..])
  {
    var before, after := node.shared.events, Do(node, rule, step).shared.events;
    if step.Merge? {
      assert after[|before|..] == step.changes;
    }
  }

  // -- The document -------------------------------------------------------------------------------

  /** What a step does to the members and services that a document shows, or to its writes when it merges. */
  ghost predicate StepDoc(node: Node, rule: Rule, step: Step, after: Doc)
    requires step.Finish? ==> step.task in node.tasks
  {
    var doc, self := node.shared.doc, node.shared.doc.replica;
    match step
    case Merge(_, delta, _, _) =>
      && after.writes == doc.writes + delta.writes
      && forall r :: At(after.vv, r) == if At(doc.vv, r) < At(delta.vv, r) then At(delta.vv, r) else At(doc.vv, r)
    case Finish(t, _) => NodeGone(doc, after, rule, node.tasks[t].remote)
    case Stop(_) => NodeGone(doc, after, rule, self)
    case AddService(name, port, metadata) =>
      && OnlyServices(doc, after, rule, self)
      && NodeServices(after, rule, self) == NodeServices(doc, rule, self)[name := ServiceInfo(name, port, metadata)]
    case DropService(name) =>
      && OnlyServices(doc, after, rule, self)
      && NodeServices(after, rule, self) == NodeServices(doc, rule, self) - {name}
    case _ => after == doc
  }

  /** Node `n` and its services are gone, and everybody else is as before. */
  ghost predicate NodeGone(doc: Doc, after: Doc, rule: Rule, n: NodeId) {
    && MemberIds(after, rule) == MemberIds(doc, rule) - {n} && NodeServices(after, rule, n) == map[]
    && forall m :: m != n ==> NodeServices(after, rule, m) == NodeServices(doc, rule, m)
  }

  /** At most the services of `n` have changed. */
  ghost predicate OnlyServices(doc: Doc, after: Doc, rule: Rule, n: NodeId) {
    && MemberIds(after, rule) == MemberIds(doc, rule)
    && forall m :: m != n ==> NodeServices(after, rule, m) == NodeServices(doc, rule, m)
  }

  lemma SameServices(doc: Doc, after: Doc, rule: Rule, m: NodeId)
    requires Lawful(rule) && forall name :: ServiceEntry(after, rule, m, name) == ServiceEntry(doc, rule, m, name)
    ensures NodeServices(after, rule, m) == NodeServices(doc, rule, m)
  {
    forall name
      ensures name in NodeServices(after, rule, m) <==> HasPort(after, rule, m, name)
      ensures name in NodeServices(doc, rule, m) <==> HasPort(doc, rule, m, name)
      ensures ServiceEntry(after, rule, m, name) == ServiceEntry(doc, rule, m, name)
    {
      if HasPort(after, rule, m, name) {
        ServiceVisible(after, rule, m, name);
        ServiceVisible(doc, rule, m, name);
      }
    }
  }

  lemma RemovalGone(doc: Doc, rule: Rule, n: NodeId, names: seq<string>)
    requires ValidDoc(doc) && Lawful(rule) && ServicesToRemove(doc, rule, n, names)
    ensures NodeGone(doc, RemoveNode(doc, n, names), rule, n)
  {
    var after := RemoveNode(doc, n, names);
    RemoveNodeEffect(doc, rule, n, names);
    RemoveNodeEntries(doc, rule, n, names);
    forall m | m != n ensures NodeServices(after, rule, m) == NodeServices(doc, rule, m) {
      SameServices(doc, after, rule, m);
    }
  }

  lemma ServiceWriteOnly(doc: Doc, rule: Rule, name: string, op: Op)
    requires ValidDoc(doc) && Lawful(rule)
    ensures OnlyServices(doc, LocalWrite(doc, ServicePath(doc.replica, name), op), rule, doc.replica)
  {
    var after := LocalWrite(doc, ServicePath(doc.replica, name), op);
    ServiceWriteKeepsMembers(doc, rule, doc.replica, name, op);
    ReadYourWrite(doc, rule, ServicePath(doc.replica, name), op);
    forall m | m != doc.replica ensures NodeServices(after, rule, m) == NodeServices(doc, rule, m) {
      forall x ensures ServiceEntry(after, rule, m, x) == ServiceEntry(doc, rule, m, x) {
        assert ServicePath(m, x) != ServicePath(doc.replica, name);
      }
      SameServices(doc, after, rule, m);
    }
  }

  lemma DocAfterStep(node: Node, rule: Rule, step: Step)
    requires Can(node, rule, step) && ValidDoc(node.shared.doc) && Lawful(rule)
    ensures StepDoc(node, rule, step, Do(node, rule, step).shared.doc)
  {
    var doc := node.shared.doc;
    match step
    case Finish(t, names) => RemovalGone(doc, rule, node.tasks[t].remote, names);
    case Stop(names) => RemovalGone(doc, rule, doc.replica, names);
    case AddService(name, port, metadata) =>
      ServiceWriteOnly(doc, rule, name, Set(ServiceRecord(port, metadata)));
      RegisterShows(doc, rule, name, port, metadata);
    case DropService(name) =>
      ServiceWriteOnly(doc, rule, name, Remove);
      UnregisterHides(doc, rule, name);
    case _ =>
  }

  // -- Wires --------------------------------------------------------------------------------------

  /** The wire to `t` after an action, message by message. */
  ghost predicate WireEffect(w: World, act: Action, t: TaskId, after: map<TaskId, seq<Message>>) {
    if act.Dial? && act.conn == t.conn then
      t in after && after[t] == if t.initiator then [] else [Handshake(act.initiator, act.addr)]
    else if t !in w.wires then t !in after
    else if (act.Refuse? || act.Answer? || act.Conclude? || act.Deliver?) && act.t == t then
      t in after && w.wires[t] != [] && after[t] == w.wires[t][1..]
    else if act.SendAck? && act.t == Other(t) then
      && Running(w, act.t) && w.nodes[Far(w, t)].tasks[act.t].phase.Acking? && t in after
      && after[t] == w.wires[t] + [HandshakeAck(Far(w, t), act.addr, w.nodes[Far(w, t)].tasks[act.t].phase.vv)]
    else if act.SendSync? && act.t == Other(t) then
      && Running(w, act.t) && w.nodes[Far(w, t)].tasks[act.t].phase.Writing? && t in after
      && var phase := w.nodes[Far(w, t)].tasks[act.t].phase;
      after[t] == w.wires[t] + [MembershipSync(phase.delta, phase.senderVv)]
    else if act.Lose? && act.t == t then t in after && act.keep <= |w.wires[t]| && after[t] == w.wires[t][..act.keep]
    else t in after && after[t] == w.wires[t]
  }

  lemma ActionWire(w: World, rule: Rule, act: Action, t: TaskId)
    requires Enabled(w, rule, act)
    ensures WireEffect(w, act, t, Apply(w, rule, act).wires)
  {
    assert Apply(w, rule, act).wires == WiresAfter(w, act);
  }

  lemma ActionConnects(w: World, rule: Rule, act: Action)
    requires Enabled(w, rule, act)
    ensures Apply(w, rule, act).ends
         == if act.Dial? then w.ends[act.conn := Ends(act.initiator, act.responder)] else w.ends
    ensures act.Dial? ==> act.conn !in w.ends
  {
  }

  // -- All of it ----------------------------------------------------------------------------------

  /** Part by part, what a step does to its node. */
  ghost predicate StepEffect(node: Node, rule: Rule, step: Step, after: Node)
    requires step.Merge? || step.Finish? ==> step.task in node.tasks
  {
    && after.shared.doc.replica == node.shared.doc.replica
    && StepDoc(node, rule, step, after.shared.doc)
    && (forall n :: StepHandle(node, step, n, after.shared.peers))
    && (forall u :: StepTask(node, step, u, after.tasks))
    && (forall u :: u in after.shared.tokens
                    <==> (u in node.shared.tokens && step != Take(u)) || Wakes(node, step, u))
    && node.shared.events <= after.shared.events
    && StepNews(node, rule, step, after.shared.events[|node.shared.events|..])
  }

  lemma EffectOfStep(node: Node, rule: Rule, step: Step)
    requires Can(node, rule, step) && ValidDoc(node.shared.doc) && Lawful(rule)
    ensures StepEffect(node, rule, step, Do(node, rule, step))
  {
    var after := Do(node, rule, step);
    DocAfterStep(node, rule, step);
    NewsOfStep(node, rule, step);
    forall n ensures StepHandle(node, step, n, after.shared.peers) {
      HandleAfterStep(node, rule, step, n);
    }
    forall u ensures StepTask(node, step, u, after.tasks) {
      TaskAfterStep(node, rule, step, u);
    }
    forall u ensures u in after.shared.tokens
                     <==> (u in node.shared.tokens && step != Take(u)) || Wakes(node, step, u)
    {
      TokenAfterStep(node, rule, step, u);
    }
    ReplicaStays(node, rule, step);
  }

  lemma ReplicaStays(node: Node, rule: Rule, step: Step)
    requires Can(node, rule, step) && ValidDoc(node.shared.doc) && Lawful(rule)
    ensures Do(node, rule, step).shared.doc.replica == node.shared.doc.replica
  {
    if step.Finish? {
      RemoveNodeEntries(node.shared.doc, rule, node.tasks[step.task].remote, step.names);
    } else if step.Stop? {
      RemoveNodeEntries(node.shared.doc, rule, node.shared.doc.replica, step.names);
    }
  }

  /** A node that has just started: its document shows itself alone, and it has no peers, sessions or events. */
  ghost predicate Started(node: Node, rule: Rule, id: NodeId, addr: string, metadata: map<string, string>, now: nat) {
    && node.shared.doc.replica == id && node.shared.peers == map[] && node.shared.tokens == {}
    && node.shared.events == [] && node.tasks == map[]
    && Members(node.shared.doc, rule) == map[id := NodeInfo(id, addr, metadata, now, map[])]
  }

  /**
   In every run: a node that starts shows what it was started with, the node that an action makes take a step changes
   in all its parts as `StepEffect` says, and no other node changes at all.
   */
  lemma ActionEffect(rule: Rule, ws: seq<World>, acts: seq<Action>, i: nat, a: NodeId)
    requires Lawful(rule) && IsRun(rule, ws, acts) && i < |acts| && a in ws[i + 1].nodes
    ensures var w, act, after := ws[i], acts[i], ws[i + 1].nodes[a];
      && Shapely(w, act)
      && (act.Start? && act.id == a ==> Started(after, rule, a, act.addr, act.metadata, act.now))
      && (HasStep(act) && Actor(w, act) == a ==>
            Can(w.nodes[a], rule, StepOf(w, act)) && StepEffect(w.nodes[a], rule, StepOf(w, act), after))
      && (!(act.Start? && act.id == a) && !(HasStep(act) && Actor(w, act) == a) ==>
            a in w.nodes && after == w.nodes[a])
  {
    var w, act := ws[i], acts[i];
    assert Enabled(w, rule, act);
    if HasStep(act) && Actor(w, act) == a {
      StepActionMovesOne(w, rule, act);
      assert ValidDoc(DocOf(w, a)) by {
        RunInv(rule, ws, acts, i);
        ActorValid(w, a);
      }
      EffectOfStep(w.nodes[a], rule, StepOf(w, act));
    } else if act.Start? && act.id == a {
      StartListsSelf(rule, a, act.addr, act.metadata, act.now);
    } else {
      NodeUntouched(w, rule, act, a);
    }
  }

  /** The part of it about one session. */
  lemma TasksAfter(rule: Rule, ws: seq<World>, acts: seq<Action>, i: nat, a: NodeId, u: TaskId)
    requires Lawful(rule) && IsRun(rule, ws, acts) && i < |acts| && a in ws[i + 1].nodes
    ensures var w, act, after := ws[i], acts[i], ws[i + 1].nodes[a].tasks;
      && Shapely(w, act)
      && (HasStep(act) && Actor(w, act) == a ==> StepTask(w.nodes[a], StepOf(w, act), u, after))
      && (!(HasStep(act) && Actor(w, act) == a) ==> after == if a in w.nodes then w.nodes[a].tasks else map[])
  {
    var w, act := ws[i], acts[i];
    assert Enabled(w, rule, act);
    if HasStep(act) && Actor(w, act) == a {
      StepActionMovesOne(w, rule, act);
      assert ValidDoc(DocOf(w, a)) by {
        RunInv(rule, ws, acts, i);
        ActorValid(w, a);
      }
      TaskAfterStep(w.nodes[a], rule, StepOf(w, act), u);
    } else if !(act.Start? && act.id == a) {
      NodeUntouched(w, rule, act, a);
    } else {
      StartIsNew(w, rule, act);
    }
  }

  lemma StartIsNew(w: World, rule: Rule, act: Action)
    requires Enabled(w, rule, act) && act.Start?
    ensures act.id !in w.nodes && act.id in Apply(w, rule, act).nodes
    ensures Apply(w, rule, act).nodes[act.id] == StartNode(act.id, act.addr, act.metadata, act.now)
  {
  }

  lemma NodeUntouched(w: World, rule: Rule, act: Action, a: NodeId)
    requires Enabled(w, rule, act) && a in Apply(w, rule, act).nodes
    requires !(act.Start? && act.id == a) && !(HasStep(act) && Actor(w, act) == a)
    ensures a in w.nodes && Apply(w, rule, act).nodes[a] == w.nodes[a]
  {
  }
}
