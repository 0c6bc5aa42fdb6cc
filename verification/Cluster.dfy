/**
 Any number of daemons, the connections between them and the messages under way, as one state machine.
 A connection has one first-in-first-out wire per direction; it may lose what is still on a wire.
 */
module Cluster {
  import opened Causality
  import opened Document
  import opened Membership
  import opened Replication
  import opened Daemon
  import opened Sessions

  datatype Message =
    | Handshake(nodeId: NodeId, addr: string)
    | HandshakeAck(nodeId: NodeId, addr: string, vv: VersionVector)
    | MembershipSync(delta: Delta, senderVv: VersionVector)

  datatype Ends = Ends(initiator: NodeId, responder: NodeId)

  /** `wires[t]` is under way to task `t`; `history` is every write ever made. */
  datatype World = World(
    nodes: map<NodeId, Node>, ends: map<nat, Ends>, wires: map<TaskId, seq<Message>>, history: set<Write>)

  datatype Action =
    | Start(id: NodeId, addr: string, metadata: map<string, string>, now: nat)
    | Dial(conn: nat, initiator: NodeId, responder: NodeId, addr: string)
    | Refuse(t: TaskId)
    | Lose(t: TaskId, keep: nat)
    | Answer(t: TaskId)
    | Conclude(t: TaskId)
    | SendAck(t: TaskId, addr: string)
    | SendSync(t: TaskId)
    | Deliver(t: TaskId, changes: seq<MembershipChange>)
    | Local(a: NodeId, step: Step)

  const NOTHING: World := World(map[], map[], map[], {})

  function Other(t: TaskId): TaskId {
    TaskId(t.conn, !t.initiator)
  }

  function Owner(w: World, t: TaskId): NodeId
    requires t.conn in w.ends
  {
    if t.initiator then w.ends[t.conn].initiator else w.ends[t.conn].responder
  }

  /** The node at the far end of a peer task's connection. */
  function Far(w: World, t: TaskId): NodeId
    requires t.conn in w.ends
  {
    if t.initiator then w.ends[t.conn].responder else w.ends[t.conn].initiator
  }

  function DocOf(w: World, a: NodeId): Doc
    requires a in w.nodes
  {
    w.nodes[a].shared.doc
  }

  function DocsOf(w: World): Docs {
    map a | a in w.nodes :: w.nodes[a].shared.doc
  }

  /** A step that only its own node notices. */
  predicate Internal(step: Step) {
    !step.Accept? && !step.Adopt? && !step.WriteAck? && !step.WriteSync? && !step.Merge?
  }

  /** The owner of peer task `t` exists and a message is waiting for it. */
  predicate Waiting(w: World, t: TaskId) {
    && t in w.wires && w.wires[t] != [] && t.conn in w.ends && Owner(w, t) in w.nodes
  }

  predicate Running(w: World, t: TaskId) {
    && t.conn in w.ends && Owner(w, t) in w.nodes && t in w.nodes[Owner(w, t)].tasks && Other(t) in w.wires
  }

  /** The action needs no node step, or the one that `StepOf` gives. */
  predicate Shapely(w: World, act: Action) {
    match act
    case Start(id, _, _, _) => id !in w.nodes
    case Dial(conn, a, b, _) => conn !in w.ends && a in w.nodes && b in w.nodes
    case Refuse(t) => t in w.wires && w.wires[t] != []
    case Lose(t, keep) => t in w.wires && keep <= |w.wires[t]|
    case Answer(t) => Waiting(w, t) && !t.initiator && w.wires[t][0].Handshake?
    case Conclude(t) => Waiting(w, t) && t.initiator && w.wires[t][0].HandshakeAck?
    case SendAck(t, _) => Running(w, t) && w.nodes[Owner(w, t)].tasks[t].phase.Acking?
    case SendSync(t) => Running(w, t) && w.nodes[Owner(w, t)].tasks[t].phase.Writing?
    case Deliver(t, _) => Waiting(w, t) && w.wires[t][0].MembershipSync?
    case Local(a, step) => a in w.nodes && Internal(step)
  }

  predicate HasStep(act: Action) {
    !act.Start? && !act.Dial? && !act.Refuse? && !act.Lose?
  }

  function Actor(w: World, act: Action): NodeId
    requires Shapely(w, act) && HasStep(act)
  {
    if act.Local? then act.a else Owner(w, act.t)
  }

  /** The step an action makes its actor take. */
  function StepOf(w: World, act: Action): Step
    requires Shapely(w, act) && HasStep(act)
  {
    match act
    case Answer(t) => Accept(t, w.wires[t][0].nodeId, w.wires[t][0].addr)
    case Conclude(t) => Adopt(t, w.wires[t][0].nodeId, w.wires[t][0].addr, w.wires[t][0].vv)
    case SendAck(t, _) => WriteAck(t)
    case SendSync(t) => WriteSync(t)
    case Deliver(t, changes) => Merge(t, w.wires[t][0].delta, w.wires[t][0].senderVv, changes)
    case Local(_, step) => step
  }

  function Push(wires: map<TaskId, seq<Message>>, t: TaskId, m: Message): map<TaskId, seq<Message>>
    requires t in wires
  {
    wires[t := wires[t] + [m]]
  }

  function Pop(wires: map<TaskId, seq<Message>>, t: TaskId): map<TaskId, seq<Message>>
    requires t in wires && wires[t] != []
  {
    wires[t := wires[t][1..]]
  }

  function WiresAfter(w: World, act: Action): map<TaskId, seq<Message>>
    requires Shapely(w, act)
  {
    match act
    case Start(_, _, _, _) => w.wires
    case Dial(conn, a, _, addr) => w.wires[TaskId(conn, true) := []][TaskId(conn, false) := [Handshake(a, addr)]]
    case Refuse(t) => Pop(w.wires, t)
    case Lose(t, keep) => w.wires[t := w.wires[t][..keep]]
    case Answer(t) => Pop(w.wires, t)
    case Conclude(t) => Pop(w.wires, t)
    case SendAck(t, addr) =>
      Push(w.wires, Other(t), HandshakeAck(Owner(w, t), addr, w.nodes[Owner(w, t)].tasks[t].phase.vv))
    case SendSync(t) =>
      var phase := w.nodes[Owner(w, t)].tasks[t].phase;
      Push(w.wires, Other(t), MembershipSync(phase.delta, phase.senderVv))
    case Deliver(t, _) => Pop(w.wires, t)
    case Local(_, _) => w.wires
  }

  ghost predicate Enabled(w: World, rule: Rule, act: Action) {
    && Shapely(w, act)
    && (HasStep(act) ==> Can(w.nodes[Actor(w, act)], rule, StepOf(w, act)))
  }

  /** Put a node's new state in place, recording the writes it made. */
  function Put(w: World, a: NodeId, node: Node): World {
    w.(nodes := w.nodes[a := node], history := w.history + node.shared.doc.writes)
  }

  ghost function Apply(w: World, rule: Rule, act: Action): World
    requires Enabled(w, rule, act)
  {
    var wires := WiresAfter(w, act);
    match act
    case Start(id, addr, metadata, now) => Put(w, id, StartNode(id, addr, metadata, now))
    case Dial(conn, a, b, _) => w.(ends := w.ends[conn := Ends(a, b)], wires := wires)
    case Refuse(_) => w.(wires := wires)
    case Lose(_, _) => w.(wires := wires)
    case _ =>
      var a := Actor(w, act);
      Put(w, a, Do(w.nodes[a], rule, StepOf(w, act))).(wires := wires)
  }

  /** A run from the empty cluster: `ws[i]` is the world before the `i`-th action. */
  ghost predicate IsRun(rule: Rule, ws: seq<World>, acts: seq<Action>) {
    && |ws| == |acts| + 1
    && ws[0] == NOTHING
    && forall i {:trigger Enabled(ws[i], rule, acts[i])} :: 0 <= i < |acts| ==>
         Enabled(ws[i], rule, acts[i]) && ws[i + 1] == Apply(ws[i], rule, acts[i])
  }

  // -- The invariant ------------------------------------------------------------------------------

  /** The documents are consistent, and every node has made at least its first write. */
  ghost predicate Replicated(w: World) {
    && Consistent(w.history, DocsOf(w))
    && forall a :: a in w.nodes ==> At(DocOf(w, a).vv, a) >= 1
  }

  ghost predicate GoodPhase(history: set<Write>, docs: Docs, a: NodeId, remote: NodeId, phase: Phase) {
    match phase
    case Acking(vv) => GoodClaim(docs, a, vv)
    case Writing(delta, senderVv, _) => senderVv == delta.vv && GoodDelta(history, docs, a, remote, delta)
    case _ => true
  }

  ghost predicate GoodMessage(history: set<Write>, docs: Docs, from: NodeId, to: NodeId, m: Message) {
    match m
    case Handshake(id, _) => id == from
    case HandshakeAck(id, _, vv) => id == from && GoodClaim(docs, from, vv)
    case MembershipSync(delta, senderVv) => senderVv == delta.vv && GoodDelta(history, docs, from, to, delta)
  }

  ghost predicate GoodHandles(docs: Docs, node: Node) {
    forall n :: n in node.shared.peers ==> GoodClaim(docs, n, node.shared.peers[n].lastVv)
  }

  ghost predicate GoodTask(w: World, history: set<Write>, docs: Docs, a: NodeId, t: TaskId, task: Task) {
    && t.conn in w.ends && Owner(w, t) == a && task.remote == Far(w, t)
    && GoodClaim(docs, a, task.sent)
    && GoodPhase(history, docs, a, task.remote, task.phase)
  }

  ghost predicate GoodNode(w: World, history: set<Write>, docs: Docs, a: NodeId, node: Node) {
    && GoodHandles(docs, node)
    && forall t :: t in node.tasks ==> GoodTask(w, history, docs, a, t, node.tasks[t])
  }

  ghost predicate GoodWire(w: World, history: set<Write>, docs: Docs, t: TaskId, ms: seq<Message>) {
    && t.conn in w.ends
    && forall m :: m in ms ==> GoodMessage(history, docs, Far(w, t), Owner(w, t), m)
  }

  /** Everything stored or under way speaks the truth about its sender and leaves its receiver no gap. */
  ghost predicate Wired(w: World) {
    && (forall c :: c in w.ends ==> w.ends[c].initiator in w.nodes && w.ends[c].responder in w.nodes)
    && (forall t: TaskId :: t.conn in w.ends ==> t in w.wires)
    && (forall a :: a in w.nodes ==> GoodNode(w, w.history, DocsOf(w), a, w.nodes[a]))
    && (forall t :: t in w.wires ==> GoodWire(w, w.history, DocsOf(w), t, w.wires[t]))
  }

  ghost predicate Settled(w: World) {
    forall a :: a in w.nodes ==> Counted(w.nodes[a]) && Awake(w.nodes[a])
  }

  ghost predicate Inv(w: World) {
    Replicated(w) && Wired(w) && Settled(w)
  }

  // -- Replication steps --------------------------------------------------------------------------

  /** Replacing node `a`'s document by `after` is a legitimate move of the cluster. */
  ghost predicate Moves(history: set<Write>, docs: Docs, a: NodeId, after: Doc) {
    && Consistent(history + after.writes, docs[a := after])
    && Evolves(history, docs, history + after.writes, docs[a := after])
  }

  lemma MovesSame(history: set<Write>, docs: Docs, a: NodeId)
    requires Consistent(history, docs) && a in docs
    ensures Moves(history, docs, a, docs[a])
  {
    assert docs[a := docs[a]] == docs;
    assert history + docs[a].writes == history;
  }

  lemma MovesMerge(history: set<Write>, docs: Docs, s: NodeId, a: NodeId, d: Delta)
    requires Consistent(history, docs) && GoodDelta(history, docs, s, a, d)
    ensures Moves(history, docs, a, MergeDelta(docs[a], d))
  {
    MergeStep(history, docs, s, a, d);
    assert history + MergeDelta(docs[a], d).writes == history;
  }

  lemma MovesWrite(history: set<Write>, docs: Docs, a: NodeId, path: Path, op: Op)
    requires Consistent(history, docs) && a in docs
    ensures Moves(history, docs, a, LocalWrite(docs[a], path, op))
  {
    LocalWriteStep(history, docs, a, path, op);
    assert history + LocalWrite(docs[a], path, op).writes == history + {NextWrite(docs[a], path, op)};
  }

  lemma Overwrite(history: set<Write>, docs: Docs, a: NodeId, mid: Doc, after: Doc)
    requires mid.writes <= after.writes
    ensures docs[a := mid][a := after] == docs[a := after]
    ensures history + mid.writes + after.writes == history + after.writes
  {
  }

  lemma MovesTwice(history: set<Write>, docs: Docs, a: NodeId, mid: Doc, after: Doc)
    requires Moves(history, docs, a, mid)
    requires Moves(history + mid.writes, docs[a := mid], a, after) && mid.writes <= after.writes
    ensures Moves(history, docs, a, after)
  {
    Overwrite(history, docs, a, mid, after);
    EvolvesTransitive(history, docs, history + mid.writes, docs[a := mid],
                      history + mid.writes + after.writes, docs[a := mid][a := after]);
  }

  lemma {:induction false} TombstonesGrow(doc: Doc, id: NodeId, names: seq<string>)
    ensures doc.writes <= TombstoneServices(doc, id, names).writes
    decreases |names|
  {
    if names != [] {
      TombstonesGrow(LocalWrite(doc, ServicePath(id, names[0]), Set(DEAD)), id, names[1..]);
    }
  }

  lemma {:induction false} MovesTombstones(history: set<Write>, docs: Docs, a: NodeId, id: NodeId, names: seq<string>)
    requires Consistent(history, docs) && a in docs
    ensures Moves(history, docs, a, TombstoneServices(docs[a], id, names))
    decreases |names|
  {
    if names == [] {
      MovesSame(history, docs, a);
    } else {
      var mid := LocalWrite(docs[a], ServicePath(id, names[0]), Set(DEAD));
      MovesWrite(history, docs, a, ServicePath(id, names[0]), Set(DEAD));
      MovesTombstones(history + mid.writes, docs[a := mid], a, id, names[1..]);
      TombstonesGrow(mid, id, names[1..]);
      MovesTwice(history, docs, a, mid, TombstoneServices(docs[a], id, names));
    }
  }

  lemma MovesRemove(history: set<Write>, docs: Docs, a: NodeId, id: NodeId, names: seq<string>)
    requires Consistent(history, docs) && a in docs
    ensures Moves(history, docs, a, RemoveNode(docs[a], id, names))
  {
    var mid := TombstoneNode(docs[a], id);
    MovesWrite(history, docs, a, NodePath(id), Set(DEAD));
    MovesTombstones(history + mid.writes, docs[a := mid], a, id, names);
    TombstonesGrow(mid, id, names);
    MovesTwice(history, docs, a, mid, RemoveNode(docs[a], id, names));
  }

  /** Whatever step a node takes, its document makes a legitimate move. */
  lemma StepMoves(w: World, rule: Rule, a: NodeId, step: Step)
    requires Consistent(w.history, DocsOf(w)) && a in w.nodes && Can(w.nodes[a], rule, step)
    requires step.Merge? ==> exists s :: GoodDelta(w.history, DocsOf(w), s, a, step.delta)
    ensures Moves(w.history, DocsOf(w), a, Do(w.nodes[a], rule, step).shared.doc)
  {
    var h, docs, doc := w.history, DocsOf(w), DocOf(w, a);
    assert docs[a] == doc;
    match step
    case Merge(_, delta, _, _) =>
      var s :| GoodDelta(h, docs, s, a, delta);
      MovesMerge(h, docs, s, a, delta);
    case Finish(t, names) => MovesRemove(h, docs, a, w.nodes[a].tasks[t].remote, names);
    case Stop(names) => MovesRemove(h, docs, a, doc.replica, names);
    case AddService(name, port, metadata) =>
      MovesWrite(h, docs, a, ServicePath(doc.replica, name), Set(ServiceRecord(port, metadata)));
    case DropService(name) => MovesWrite(h, docs, a, ServicePath(doc.replica, name), Remove);
    case _ => MovesSame(h, docs, a);
  }

  lemma DocsOfPut(w: World, a: NodeId, node: Node)
    ensures DocsOf(Put(w, a, node)) == DocsOf(w)[a := node.shared.doc]
  {
  }

  lemma MovesStart(history: set<Write>, docs: Docs, id: NodeId, path: Path, op: Op)
    requires Consistent(history, docs) && id !in docs
    ensures Moves(history, docs, id, LocalWrite(NewDoc(id), path, op))
  {
    var blank := NewDoc(id);
    StartStep(history, docs, id);
    assert history + blank.writes == history;
    MovesWrite(history, docs[id := blank], id, path, op);
    MovesTwice(history, docs, id, blank, LocalWrite(blank, path, op));
  }

  lemma StartMoves(w: World, id: NodeId, addr: string, metadata: map<string, string>, now: nat)
    requires Replicated(w) && id !in w.nodes
    ensures var w' := Put(w, id, StartNode(id, addr, metadata, now));
      Replicated(w') && Evolves(w.history, DocsOf(w), w'.history, DocsOf(w'))
  {
    var node := StartNode(id, addr, metadata, now);
    MovesStart(w.history, DocsOf(w), id, NodePath(id), Set(AliveRecord(addr, metadata, now)));
    DocsOfPut(w, id, node);
    var w' := Put(w, id, node);
    forall a | a in w'.nodes ensures At(DocOf(w', a).vv, a) >= 1 {
      assert a != id ==> DocOf(w', a) == DocOf(w, a);
    }
  }

  // -- What is stored or under way stays good ------------------------------------------------------

  lemma NodeSurvives(w: World, w': World, a: NodeId, node: Node)
    requires Evolves(w.history, DocsOf(w), w'.history, DocsOf(w'))
    requires forall c :: c in w.ends ==> c in w'.ends && w'.ends[c] == w.ends[c]
    requires GoodNode(w, w.history, DocsOf(w), a, node)
    ensures GoodNode(w', w'.history, DocsOf(w'), a, node)
  {
    forall n | n in node.shared.peers ensures GoodClaim(DocsOf(w'), n, node.shared.peers[n].lastVv) {
      ClaimSurvives(w.history, DocsOf(w), w'.history, DocsOf(w'), n, node.shared.peers[n].lastVv);
    }
    forall t | t in node.tasks ensures GoodTask(w', w'.history, DocsOf(w'), a, t, node.tasks[t]) {
      var task := node.tasks[t];
      ClaimSurvives(w.history, DocsOf(w), w'.history, DocsOf(w'), a, task.sent);
      match task.phase
      case Acking(vv) => ClaimSurvives(w.history, DocsOf(w), w'.history, DocsOf(w'), a, vv);
      case Writing(delta, _, _) => DeltaSurvives(w.history, DocsOf(w), w'.history, DocsOf(w'), a, task.remote, delta);
      case _ =>
    }
  }

  lemma WireSurvives(w: World, w': World, t: TaskId, ms: seq<Message>)
    requires Evolves(w.history, DocsOf(w), w'.history, DocsOf(w'))
    requires forall c :: c in w.ends ==> c in w'.ends && w'.ends[c] == w.ends[c]
    requires GoodWire(w, w.history, DocsOf(w), t, ms)
    ensures GoodWire(w', w'.history, DocsOf(w'), t, ms)
  {
    var from, to := Far(w, t), Owner(w, t);
    forall m | m in ms ensures GoodMessage(w'.history, DocsOf(w'), from, to, m) {
      match m
      case Handshake(_, _) =>
      case HandshakeAck(_, _, vv) => ClaimSurvives(w.history, DocsOf(w), w'.history, DocsOf(w'), from, vv);
      case MembershipSync(delta, _) => DeltaSurvives(w.history, DocsOf(w), w'.history, DocsOf(w'), from, to, delta);
    }
  }
}
