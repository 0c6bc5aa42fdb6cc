/** The cluster invariant holds in every world of every run. */
module ClusterInvariant {
  import opened Causality
  import opened Document
  import opened Membership
  import opened Replication
  import opened Daemon
  import opened Sessions
  import opened Cluster

  /** The outside data a step brings in is what an honest peer sends. */
  ghost predicate GoodInput(w: World, docs: Docs, a: NodeId, node: Node, step: Step) {
    match step
    case Accept(t, remote, _) =>
      t.conn in w.ends && Owner(w, t) == a && remote == Far(w, t) && remote in docs
    case Adopt(t, remote, _, vv) =>
      t.conn in w.ends && Owner(w, t) == a && remote == Far(w, t) && GoodClaim(docs, remote, vv)
    case Merge(t, _, senderVv, _) => t in node.tasks && GoodClaim(docs, node.tasks[t].remote, senderVv)
    case _ => true
  }

  lemma EmptyClaim(docs: Docs, n: NodeId)
    requires n in docs
    ensures GoodClaim(docs, n, EMPTY)
  {
    forall r ensures At(EMPTY, r) <= At(docs[n].vv, r) {
    }
  }

  /** The sync a task reads from the document is one its peer can merge. */
  lemma ReadPhaseGood(history: set<Write>, docs: Docs, a: NodeId, node: Node, remote: NodeId, last: VersionVector,
                      initial: bool)
    requires Consistent(history, docs) && a in docs && docs[a] == node.shared.doc && GoodClaim(docs, remote, last)
    ensures GoodPhase(history, docs, a, remote,
                      Writing(DeltaSince(node.shared.doc, last), node.shared.doc.vv, initial))
  {
    MakeDelta(history, docs, a, remote, last);
  }

  lemma StepHandlesGood(w: World, docs: Docs, a: NodeId, node: Node, rule: Rule, step: Step)
    requires Can(node, rule, step) && GoodHandles(docs, node) && GoodInput(w, docs, a, node, step)
    ensures GoodHandles(docs, Do(node, rule, step))
  {
    if step.Accept? {
      EmptyClaim(docs, step.remote);
    }
  }

  /** A step that does not read the document for a sync leaves every task in a good phase. */
  lemma PlainTaskGood(w: World, history: set<Write>, docs: Docs, a: NodeId, node: Node, rule: Rule, step: Step,
                      t: TaskId)
    requires Can(node, rule, step) && !step.ReadFull? && !step.ReadDelta?
    requires a in docs && (step.Accept? ==> docs[a] == node.shared.doc) && GoodInput(w, docs, a, node, step)
    requires t in node.tasks ==> GoodTask(w, history, docs, a, t, node.tasks[t])
    requires t in Do(node, rule, step).tasks
    ensures GoodTask(w, history, docs, a, t, Do(node, rule, step).tasks[t])
  {
  }

  /** The sync a task reads is good, and no other task moves. */
  lemma ReadTaskGood(w: World, history: set<Write>, docs: Docs, a: NodeId, node: Node, rule: Rule, step: Step,
                     t: TaskId)
    requires Consistent(history, docs) && a in docs && docs[a] == node.shared.doc
    requires Can(node, rule, step) && (step.ReadFull? || step.ReadDelta?)
    requires GoodHandles(docs, node) && t in node.tasks && GoodTask(w, history, docs, a, t, node.tasks[t])
    requires node.tasks[t].remote in docs
    ensures t in Do(node, rule, step).tasks && GoodTask(w, history, docs, a, t, Do(node, rule, step).tasks[t])
  {
    var remote := node.tasks[t].remote;
    if step.ReadFull? {
      EmptyClaim(docs, remote);
      ReadPhaseGood(history, docs, a, node, remote, EMPTY, true);
    } else if remote in node.shared.peers {
      ReadPhaseGood(history, docs, a, node, remote, node.shared.peers[remote].lastVv, false);
    }
  }

  lemma StepNodeGood(w: World, history: set<Write>, docs: Docs, a: NodeId, node: Node, rule: Rule, step: Step)
    requires Consistent(history, docs) && a in docs && Can(node, rule, step)
    requires docs[a] == Do(node, rule, step).shared.doc
    requires GoodNode(w, history, docs, a, node) && GoodInput(w, docs, a, node, step)
    requires forall c :: c in w.ends ==> w.ends[c].initiator in docs && w.ends[c].responder in docs
    ensures GoodNode(w, history, docs, a, Do(node, rule, step))
  {
    StepHandlesGood(w, docs, a, node, rule, step);
    forall t | t in Do(node, rule, step).tasks
      ensures GoodTask(w, history, docs, a, t, Do(node, rule, step).tasks[t])
    {
      if step.ReadFull? || step.ReadDelta? {
        assert GoodTask(w, history, docs, a, t, node.tasks[t]);
        ReadTaskGood(w, history, docs, a, node, rule, step, t);
      } else {
        PlainTaskGood(w, history, docs, a, node, rule, step, t);
      }
    }
  }

  // -- One action ---------------------------------------------------------------------------------

  lemma HeadIsGood(w: World, t: TaskId)
    requires Wired(w) && Waiting(w, t)
    ensures GoodMessage(w.history, DocsOf(w), Far(w, t), Owner(w, t), w.wires[t][0])
  {
    assert GoodWire(w, w.history, DocsOf(w), t, w.wires[t]);
    assert w.wires[t][0] in w.wires[t];
  }

  /** What an action feeds into its step comes from an honest peer. */
  lemma ActionInput(w: World, rule: Rule, act: Action)
    requires Wired(w) && Enabled(w, rule, act) && HasStep(act)
    ensures GoodInput(w, DocsOf(w), Actor(w, act), w.nodes[Actor(w, act)], StepOf(w, act))
    ensures StepOf(w, act).Merge? ==>
      exists s :: GoodDelta(w.history, DocsOf(w), s, Actor(w, act), StepOf(w, act).delta)
  {
    var a := Actor(w, act);
    if act.Answer? || act.Conclude? || act.Deliver? {
      HeadIsGood(w, act.t);
      assert GoodNode(w, w.history, DocsOf(w), a, w.nodes[a]);
    }
  }

  /** An action that makes a node take a step replaces this node and no other. */
  lemma StepActionMovesOne(w: World, rule: Rule, act: Action)
    requires Enabled(w, rule, act) && HasStep(act)
    ensures var a := Actor(w, act);
      Apply(w, rule, act).nodes == w.nodes[a := Do(w.nodes[a], rule, StepOf(w, act))]
    ensures Apply(w, rule, act).ends == w.ends && Apply(w, rule, act).wires.Keys == w.wires.Keys
  {
  }

  /** The documents after an action that makes a node take a step. */
  lemma ActionDocs(w: World, rule: Rule, act: Action)
    requires Enabled(w, rule, act) && HasStep(act)
    ensures var doc := Do(w.nodes[Actor(w, act)], rule, StepOf(w, act)).shared.doc;
      && DocsOf(Apply(w, rule, act)) == DocsOf(w)[Actor(w, act) := doc]
      && Apply(w, rule, act).history == w.history + doc.writes
      && Apply(w, rule, act).nodes.Keys == w.nodes.Keys
  {
  }

  lemma CountersStay(w: World, w': World)
    requires Evolves(w.history, DocsOf(w), w'.history, DocsOf(w')) && w'.nodes.Keys == w.nodes.Keys
    requires forall a :: a in w.nodes ==> At(DocOf(w, a).vv, a) >= 1
    ensures forall a :: a in w'.nodes ==> At(DocOf(w', a).vv, a) >= 1
  {
    forall a | a in w'.nodes ensures At(DocOf(w', a).vv, a) >= 1 {
      assert Leq(DocsOf(w)[a].vv, DocsOf(w')[a].vv);
      assert At(DocsOf(w)[a].vv, a) <= At(DocsOf(w')[a].vv, a);
    }
  }

  lemma StepReplicated(w: World, w': World, rule: Rule, a: NodeId, step: Step)
    requires Replicated(w) && a in w.nodes && Can(w.nodes[a], rule, step)
    requires step.Merge? ==> exists s :: GoodDelta(w.history, DocsOf(w), s, a, step.delta)
    requires DocsOf(w') == DocsOf(w)[a := Do(w.nodes[a], rule, step).shared.doc]
    requires w'.history == w.history + Do(w.nodes[a], rule, step).shared.doc.writes
    requires w'.nodes.Keys == w.nodes.Keys
    ensures Replicated(w') && Evolves(w.history, DocsOf(w), w'.history, DocsOf(w'))
  {
    StepMoves(w, rule, a, step);
    CountersStay(w, w');
  }

  lemma QuietReplicated(w: World, w': World)
    requires Replicated(w) && w'.nodes == w.nodes && w'.history == w.history
    ensures Replicated(w') && Evolves(w.history, DocsOf(w), w'.history, DocsOf(w'))
  {
    assert DocsOf(w') == DocsOf(w);
    EvolvesReflexive(w.history, DocsOf(w));
  }

  lemma StepActionReplicated(w: World, rule: Rule, act: Action)
    requires Replicated(w) && Enabled(w, rule, act) && HasStep(act)
    requires StepOf(w, act).Merge? ==>
      exists s :: GoodDelta(w.history, DocsOf(w), s, Actor(w, act), StepOf(w, act).delta)
    ensures Replicated(Apply(w, rule, act))
    ensures Evolves(w.history, DocsOf(w), Apply(w, rule, act).history, DocsOf(Apply(w, rule, act)))
  {
    ActionDocs(w, rule, act);
    StepReplicated(w, Apply(w, rule, act), rule, Actor(w, act), StepOf(w, act));
  }

  lemma OtherActionReplicated(w: World, rule: Rule, act: Action)
    requires Replicated(w) && Enabled(w, rule, act) && !HasStep(act)
    ensures Replicated(Apply(w, rule, act))
    ensures Evolves(w.history, DocsOf(w), Apply(w, rule, act).history, DocsOf(Apply(w, rule, act)))
  {
    if act.Start? {
      StartMoves(w, act.id, act.addr, act.metadata, act.now);
    } else {
      QuietReplicated(w, Apply(w, rule, act));
    }
  }

  /** The replication part of one action. */
  lemma ActionReplicated(w: World, rule: Rule, act: Action)
    requires Replicated(w) && Wired(w) && Enabled(w, rule, act)
    ensures Replicated(Apply(w, rule, act))
    ensures Evolves(w.history, DocsOf(w), Apply(w, rule, act).history, DocsOf(Apply(w, rule, act)))
  {
    if HasStep(act) {
      ActionInput(w, rule, act);
      StepActionReplicated(w, rule, act);
    } else {
      OtherActionReplicated(w, rule, act);
    }
  }

  lemma InputSurvives(w: World, w': World, a: NodeId, node: Node, step: Step)
    requires Evolves(w.history, DocsOf(w), w'.history, DocsOf(w')) && w'.ends == w.ends
    requires GoodInput(w, DocsOf(w), a, node, step)
    ensures GoodInput(w', DocsOf(w'), a, node, step)
  {
    match step
    case Adopt(_, remote, _, vv) => ClaimSurvives(w.history, DocsOf(w), w'.history, DocsOf(w'), remote, vv);
    case Merge(t, _, vv, _) => ClaimSurvives(w.history, DocsOf(w), w'.history, DocsOf(w'), node.tasks[t].remote, vv);
    case _ =>
  }

  /** The node that takes the step is good afterwards. */
  lemma ActorGood(w: World, w': World, rule: Rule, a: NodeId, step: Step)
    requires Consistent(w'.history, DocsOf(w')) && Evolves(w.history, DocsOf(w), w'.history, DocsOf(w'))
    requires a in w.nodes && Can(w.nodes[a], rule, step) && GoodInput(w, DocsOf(w), a, w.nodes[a], step)
    requires GoodNode(w, w.history, DocsOf(w), a, w.nodes[a]) && w'.ends == w.ends
    requires a in w'.nodes && DocOf(w', a) == Do(w.nodes[a], rule, step).shared.doc
    requires forall c :: c in w.ends ==> w.ends[c].initiator in w'.nodes && w.ends[c].responder in w'.nodes
    ensures GoodNode(w', w'.history, DocsOf(w'), a, Do(w.nodes[a], rule, step))
  {
    NodeSurvives(w, w', a, w.nodes[a]);
    InputSurvives(w, w', a, w.nodes[a], step);
    StepNodeGood(w', w'.history, DocsOf(w'), a, w.nodes[a], rule, step);
  }

  lemma ActorNode(w: World, rule: Rule, act: Action)
    requires Wired(w) && Enabled(w, rule, act) && HasStep(act)
    requires Consistent(Apply(w, rule, act).history, DocsOf(Apply(w, rule, act)))
    requires Evolves(w.history, DocsOf(w), Apply(w, rule, act).history, DocsOf(Apply(w, rule, act)))
    ensures var w' := Apply(w, rule, act);
      GoodNode(w', w'.history, DocsOf(w'), Actor(w, act), w'.nodes[Actor(w, act)])
  {
    var a := Actor(w, act);
    assert GoodNode(w, w.history, DocsOf(w), a, w.nodes[a]);
    ActionInput(w, rule, act);
    ActorGood(w, Apply(w, rule, act), rule, a, StepOf(w, act));
  }

  /** An action moves no node but its actor and keeps all connections. */
  lemma OtherUnmoved(w: World, rule: Rule, act: Action)
    requires Enabled(w, rule, act)
    ensures var w' := Apply(w, rule, act);
      && (forall b :: b in w.nodes && (HasStep(act) ==> b != Actor(w, act)) ==>
            b in w'.nodes && w'.nodes[b] == w.nodes[b])
      && (forall c :: c in w.ends ==> c in w'.ends && w'.ends[c] == w.ends[c])
  {
  }

  lemma OtherNode(w: World, rule: Rule, act: Action, b: NodeId)
    requires Wired(w) && Enabled(w, rule, act) && b in w.nodes && (HasStep(act) ==> b != Actor(w, act))
    requires Evolves(w.history, DocsOf(w), Apply(w, rule, act).history, DocsOf(Apply(w, rule, act)))
    ensures var w' := Apply(w, rule, act); b in w'.nodes && GoodNode(w', w'.history, DocsOf(w'), b, w'.nodes[b])
  {
    OtherUnmoved(w, rule, act);
    NodeSurvives(w, Apply(w, rule, act), b, w.nodes[b]);
  }

  /** The message an action puts on a wire, if any, is good. */
  lemma SentIsGood(w: World, act: Action)
    requires Wired(w) && Shapely(w, act)
    ensures act.SendAck? ==> GoodMessage(w.history, DocsOf(w), Owner(w, act.t), Far(w, act.t),
      HandshakeAck(Owner(w, act.t), act.addr, w.nodes[Owner(w, act.t)].tasks[act.t].phase.vv))
    ensures act.SendSync? ==> GoodMessage(w.history, DocsOf(w), Owner(w, act.t), Far(w, act.t),
      MembershipSync(w.nodes[Owner(w, act.t)].tasks[act.t].phase.delta,
                     w.nodes[Owner(w, act.t)].tasks[act.t].phase.senderVv))
  {
    if act.SendAck? || act.SendSync? {
      var a := Owner(w, act.t);
      assert GoodNode(w, w.history, DocsOf(w), a, w.nodes[a]);
      assert GoodTask(w, w.history, DocsOf(w), a, act.t, w.nodes[a].tasks[act.t]);
    }
  }

  /** Before the documents move, the wires after the action carry good messages only. */
  lemma WiresAfterGood(w: World, act: Action, ends: map<nat, Ends>, t: TaskId)
    requires Wired(w) && Shapely(w, act) && t in WiresAfter(w, act)
    requires ends == if act.Dial? then w.ends[act.conn := Ends(act.initiator, act.responder)] else w.ends
    ensures GoodWire(w.(ends := ends), w.history, DocsOf(w), t, WiresAfter(w, act)[t])
  {
    SentIsGood(w, act);
    var ms := WiresAfter(w, act)[t];
    if t in w.wires {
      assert GoodWire(w, w.history, DocsOf(w), t, w.wires[t]);
      if act.Dial? {
        assert t.conn != act.conn;
      }
      forall m | m in ms
        ensures GoodMessage(w.history, DocsOf(w), Far(w, t), Owner(w, t), m)
      {
      }
    }
  }

  lemma ActionWires(w: World, rule: Rule, act: Action, t: TaskId)
    requires Wired(w) && Enabled(w, rule, act) && t in Apply(w, rule, act).wires
    requires Evolves(w.history, DocsOf(w), Apply(w, rule, act).history, DocsOf(Apply(w, rule, act)))
    ensures var w' := Apply(w, rule, act); GoodWire(w', w'.history, DocsOf(w'), t, w'.wires[t])
  {
    var w' := Apply(w, rule, act);
    var w1 := w.(ends := w'.ends);
    assert DocsOf(w1) == DocsOf(w);
    WiresAfterGood(w, act, w'.ends, t);
    WireSurvives(w1, w', t, w'.wires[t]);
  }

  lemma ActionEnds(w: World, rule: Rule, act: Action)
    requires Wired(w) && Enabled(w, rule, act)
    ensures var w' := Apply(w, rule, act);
      && (forall c :: c in w'.ends ==> w'.ends[c].initiator in w'.nodes && w'.ends[c].responder in w'.nodes)
      && (forall t: TaskId :: t.conn in w'.ends ==> t in w'.wires)
  {
  }

  lemma ActionWired(w: World, rule: Rule, act: Action)
    requires Wired(w) && Enabled(w, rule, act)
    requires Consistent(Apply(w, rule, act).history, DocsOf(Apply(w, rule, act)))
    requires Evolves(w.history, DocsOf(w), Apply(w, rule, act).history, DocsOf(Apply(w, rule, act)))
    ensures Wired(Apply(w, rule, act))
  {
    var w' := Apply(w, rule, act);
    forall b | b in w'.nodes ensures GoodNode(w', w'.history, DocsOf(w'), b, w'.nodes[b]) {
      if HasStep(act) && b == Actor(w, act) {
        ActorNode(w, rule, act);
      } else if b in w.nodes {
        OtherNode(w, rule, act, b);
      }
    }
    forall t | t in w'.wires ensures GoodWire(w', w'.history, DocsOf(w'), t, w'.wires[t]) {
      ActionWires(w, rule, act, t);
    }
    ActionEnds(w, rule, act);
  }

  lemma StartSettled(id: NodeId, addr: string, metadata: map<string, string>, now: nat)
    ensures Counted(StartNode(id, addr, metadata, now)) && Awake(StartNode(id, addr, metadata, now))
  {
    var node := StartNode(id, addr, metadata, now);
    forall n ensures Balanced(node, n) {
      assert LiveTasks(node, n) == {};
    }
  }

  lemma ActorValid(w: World, a: NodeId)
    requires Replicated(w) && a in w.nodes
    ensures ValidDoc(DocOf(w, a))
  {
    assert DocsOf(w)[a] == DocOf(w, a);
    ConsistentIsValid(w.history, DocsOf(w), a);
  }

  lemma StepSettled(node: Node, rule: Rule, step: Step)
    requires Lawful(rule) && Counted(node) && Awake(node) && Can(node, rule, step) && ValidDoc(node.shared.doc)
    ensures Counted(Do(node, rule, step)) && Awake(Do(node, rule, step))
  {
    StepCounted(node, rule, step);
    StepAwake(node, rule, step);
  }

  lemma PutSettled(w: World, w': World, a: NodeId)
    requires Settled(w) && a in w'.nodes && w'.nodes == w.nodes[a := w'.nodes[a]]
    requires Counted(w'.nodes[a]) && Awake(w'.nodes[a])
    ensures Settled(w')
  {
    forall b | b in w'.nodes && b != a ensures Counted(w'.nodes[b]) && Awake(w'.nodes[b]) {
      assert w'.nodes[b] == w.nodes[b];
    }
  }

  lemma ActionSettled(w: World, rule: Rule, act: Action)
    requires Lawful(rule) && Replicated(w) && Settled(w) && Enabled(w, rule, act)
    ensures Settled(Apply(w, rule, act))
  {
    if HasStep(act) {
      ActorValid(w, Actor(w, act));
      StepSettled(w.nodes[Actor(w, act)], rule, StepOf(w, act));
      PutSettled(w, Apply(w, rule, act), Actor(w, act));
    } else if act.Start? {
      StartSettled(act.id, act.addr, act.metadata, act.now);
      PutSettled(w, Apply(w, rule, act), act.id);
    }
  }

  lemma ActionInv(w: World, rule: Rule, act: Action)
    requires Lawful(rule) && Inv(w) && Enabled(w, rule, act)
    ensures Inv(Apply(w, rule, act))
  {
    ActionReplicated(w, rule, act);
    ActionWired(w, rule, act);
    ActionSettled(w, rule, act);
  }

  // -- Whole runs ---------------------------------------------------------------------------------

  lemma NothingInv()
    ensures Inv(NOTHING)
  {
  }

  lemma {:induction false} RunInv(rule: Rule, ws: seq<World>, acts: seq<Action>, i: nat)
    requires Lawful(rule) && IsRun(rule, ws, acts) && i < |ws|
    ensures Inv(ws[i])
    decreases i
  {
    if i == 0 {
      NothingInv();
    } else {
      RunInv(rule, ws, acts, i - 1);
      ActionInv(ws[i - 1], rule, acts[i - 1]);
    }
  }

  lemma {:induction false} RunEvolves(rule: Rule, ws: seq<World>, acts: seq<Action>, i: nat, j: nat)
    requires Lawful(rule) && IsRun(rule, ws, acts) && i <= j < |ws|
    ensures Evolves(ws[i].history, DocsOf(ws[i]), ws[j].history, DocsOf(ws[j]))
    decreases j - i
  {
    if i == j {
      EvolvesReflexive(ws[i].history, DocsOf(ws[i]));
    } else {
      RunEvolves(rule, ws, acts, i, j - 1);
      RunInv(rule, ws, acts, j - 1);
      ActionReplicated(ws[j - 1], rule, acts[j - 1]);
      EvolvesTransitive(ws[i].history, DocsOf(ws[i]), ws[j - 1].history, DocsOf(ws[j - 1]),
                        ws[j].history, DocsOf(ws[j]));
    }
  }

  /** A node that has started stays, and its vector only grows. */
  lemma VectorsGrow(rule: Rule, ws: seq<World>, acts: seq<Action>, i: nat, j: nat, a: NodeId)
    requires Lawful(rule) && IsRun(rule, ws, acts) && i <= j < |ws| && a in ws[i].nodes
    ensures a in ws[j].nodes && Leq(DocOf(ws[i], a).vv, DocOf(ws[j], a).vv)
  {
    RunEvolves(rule, ws, acts, i, j);
    assert a in DocsOf(ws[i]) && a in DocsOf(ws[j]);
    assert Leq(DocsOf(ws[i])[a].vv, DocsOf(ws[j])[a].vv);
  }
}
