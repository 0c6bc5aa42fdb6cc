/** Epidemic convergence: what syncs carry, and that everybody ends up with the same membership. */
module Convergence {
  import opened Causality
  import opened Document
  import opened Membership
  import opened Replication
  import opened Daemon
  import opened Sessions
  import opened Cluster
  import opened ClusterInvariant
  import opened Delivery

  /** A step that writes to the document, rather than merging what another replica wrote. */
  predicate Writes(step: Step) {
    step.Finish? || step.Stop? || step.AddService? || step.DropService?
  }

  /** If the action is one of `group`'s, it writes nothing and merges nothing that comes from outside. */
  predicate Confined(w: World, act: Action, group: set<NodeId>) {
    Shapely(w, act) && (HasStep(act) && Actor(w, act) in group ==>
      !Writes(StepOf(w, act)) && (act.Deliver? ==> Far(w, act.t) in group))
  }

  /** A sync of `sender` that `receiver` merges by action `merged`, read from a document as of world `read` at least. */
  datatype Hop = Hop(sender: NodeId, read: nat, receiver: NodeId, merged: nat)

  /** Nothing that was pending between the two in world `read` is left when the sync is merged. */
  ghost predicate IsHop(ws: seq<World>, acts: seq<Action>, h: Hop) {
    && h.read <= h.merged < |acts| < |ws|
    && acts[h.merged].Deliver? && Waiting(ws[h.merged], acts[h.merged].t)
    && var t := acts[h.merged].t;
    && Owner(ws[h.merged], t) == h.receiver && Far(ws[h.merged], t) == h.sender
    && h.sender in ws[h.read].nodes && Stale(ws, acts, t, h.read, h.merged) == 0
  }

  /** Hops delivered one after the other, each read where the previous one was merged, leading from `a` to `b`. */
  ghost predicate IsPath(ws: seq<World>, acts: seq<Action>, a: NodeId, i: nat, b: NodeId, j: nat, hops: seq<Hop>)
    decreases |hops|
  {
    if hops == [] then a == b && i <= j
    else
      && IsHop(ws, acts, hops[0]) && hops[0].sender == a && i <= hops[0].read
      && IsPath(ws, acts, hops[0].receiver, hops[0].merged + 1, b, j, hops[1..])
  }

  lemma StepCovers(node: Node, rule: Rule, step: Step)
    requires Can(node, rule, step) && step.Merge?
    ensures Leq(step.delta.vv, Do(node, rule, step).shared.doc.vv)
  {
    assert Do(node, rule, step).shared.doc.vv == Join(node.shared.doc.vv, step.delta.vv);
  }

  /** A merge leaves the receiver covering the sync's vector. */
  lemma DeliverCovers(w: World, rule: Rule, act: Action)
    requires Wired(w) && Enabled(w, rule, act) && act.Deliver?
    ensures Owner(w, act.t) in Apply(w, rule, act).nodes
    ensures Leq(w.wires[act.t][0].senderVv, DocOf(Apply(w, rule, act), Owner(w, act.t)).vv)
  {
    HeadIsGood(w, act.t);
    StepActionMovesOne(w, rule, act);
    StepCovers(w.nodes[Owner(w, act.t)], rule, StepOf(w, act));
  }

  lemma RunDelivers(rule: Rule, ws: seq<World>, acts: seq<Action>, k: nat)
    requires Lawful(rule) && IsRun(rule, ws, acts) && k < |acts| && acts[k].Deliver? && Waiting(ws[k], acts[k].t)
    requires ws[k].wires[acts[k].t][0].MembershipSync?
    ensures var b := Owner(ws[k], acts[k].t);
      b in ws[k + 1].nodes && Leq(ws[k].wires[acts[k].t][0].senderVv, DocOf(ws[k + 1], b).vv)
  {
    assert Enabled(ws[k], rule, acts[k]);
    assert Wired(ws[k]) by {
      RunInv(rule, ws, acts, k);
    }
    DeliverCovers(ws[k], rule, acts[k]);
  }

  lemma HopCarries(rule: Rule, ws: seq<World>, acts: seq<Action>, h: Hop)
    requires Lawful(rule) && IsRun(rule, ws, acts) && IsHop(ws, acts, h)
    ensures h.receiver in ws[h.merged + 1].nodes
    ensures Leq(DocOf(ws[h.read], h.sender).vv, DocOf(ws[h.merged + 1], h.receiver).vv)
  {
    var w, act := ws[h.merged], acts[h.merged];
    DeliveryCovers(rule, ws, acts, h.read, h.merged);
    RunDelivers(rule, ws, acts, h.merged);
    LeqTransitive(DocOf(ws[h.read], h.sender).vv, w.wires[act.t][0].senderVv, DocOf(ws[h.merged + 1], h.receiver).vv);
  }

  /** Syncs delivered in order along a path carry everything its first replica knew to its last. */
  lemma {:induction false} PathCarries(rule: Rule, ws: seq<World>, acts: seq<Action>,
                                       a: NodeId, i: nat, b: NodeId, j: nat, hops: seq<Hop>)
    requires Lawful(rule) && IsRun(rule, ws, acts) && i <= j < |ws| && a in ws[i].nodes
    requires IsPath(ws, acts, a, i, b, j, hops)
    ensures b in ws[j].nodes && Leq(DocOf(ws[i], a).vv, DocOf(ws[j], b).vv)
    decreases |hops|
  {
    if hops == [] {
      VectorsGrow(rule, ws, acts, i, j, a);
    } else {
      var h := hops[0];
      PathEndsLater(ws, acts, h.receiver, h.merged + 1, b, j, hops[1..]);
      VectorsGrow(rule, ws, acts, i, h.read, a);
      HopCarries(rule, ws, acts, h);
      PathCarries(rule, ws, acts, h.receiver, h.merged + 1, b, j, hops[1..]);
      LeqTransitive(DocOf(ws[i], a).vv, DocOf(ws[h.read], a).vv, DocOf(ws[h.merged + 1], h.receiver).vv);
      LeqTransitive(DocOf(ws[i], a).vv, DocOf(ws[h.merged + 1], h.receiver).vv, DocOf(ws[j], b).vv);
    }
  }

  lemma {:induction false} PathEndsLater(ws: seq<World>, acts: seq<Action>, a: NodeId, i: nat, b: NodeId, j: nat,
                                         hops: seq<Hop>)
    requires IsPath(ws, acts, a, i, b, j, hops)
    ensures i <= j
    decreases |hops|
  {
    if hops != [] {
      PathEndsLater(ws, acts, hops[0].receiver, hops[0].merged + 1, b, j, hops[1..]);
    }
  }

  /** What a member of the group knows after a confined action, some member knew before. */
  lemma KnownBefore(w: World, rule: Rule, act: Action, group: set<NodeId>, a: NodeId, r: NodeId) returns (c: NodeId)
    requires Wired(w) && Enabled(w, rule, act) && Confined(w, act, group) && group <= w.nodes.Keys && a in group
    ensures a in Apply(w, rule, act).nodes && c in group
    ensures At(DocOf(Apply(w, rule, act), a).vv, r) <= At(DocOf(w, c).vv, r)
  {
    c := a;
    if act.Deliver? && Owner(w, act.t) == a {
      HeadIsGood(w, act.t);
      var from, delta := Far(w, act.t), w.wires[act.t][0].delta;
      assert Leq(delta.vv, DocsOf(w)[from].vv);
      assert At(delta.vv, r) <= At(DocOf(w, from).vv, r);
      if At(DocOf(w, a).vv, r) < At(delta.vv, r) {
        c := from;
      }
    } else {
      QuietNode(w, rule, act, group, a);
    }
  }

  lemma QuietNode(w: World, rule: Rule, act: Action, group: set<NodeId>, a: NodeId)
    requires Enabled(w, rule, act) && Confined(w, act, group) && a in group && a in w.nodes
    requires !(act.Deliver? && Owner(w, act.t) == a)
    ensures a in Apply(w, rule, act).nodes && DocOf(Apply(w, rule, act), a) == DocOf(w, a)
  {
  }

  /** Over a confined stretch of a run, what a member of the group knows, some member knew at its start. */
  lemma {:induction false} KnownAtStart(rule: Rule, ws: seq<World>, acts: seq<Action>, i: nat, k: nat,
                                        group: set<NodeId>, a: NodeId, r: NodeId) returns (c: NodeId)
    requires Lawful(rule) && IsRun(rule, ws, acts) && i <= k < |ws|
    requires forall l :: i <= l < k ==> Confined(ws[l], acts[l], group)
    requires group <= ws[i].nodes.Keys && a in group
    ensures c in group && a in ws[k].nodes && At(DocOf(ws[k], a).vv, r) <= At(DocOf(ws[i], c).vv, r)
    decreases k
  {
    c := a;
    if i < k {
      assert Wired(ws[k - 1]) by {
        RunInv(rule, ws, acts, k - 1);
      }
      GroupStays(rule, ws, acts, i, k - 1, group);
      var b := KnownBefore(ws[k - 1], rule, acts[k - 1], group, a, r);
      c := KnownAtStart(rule, ws, acts, i, k - 1, group, b, r);
    }
  }

  lemma GroupStays(rule: Rule, ws: seq<World>, acts: seq<Action>, i: nat, k: nat, group: set<NodeId>)
    requires Lawful(rule) && IsRun(rule, ws, acts) && i <= k < |ws| && group <= ws[i].nodes.Keys
    ensures group <= ws[k].nodes.Keys
  {
    forall a | a in group ensures a in ws[k].nodes {
      VectorsGrow(rule, ws, acts, i, k, a);
    }
  }

  /** The schedule from world `i` to world `j` has a path of syncs from every member of the group to every other. */
  ghost predicate Connects(ws: seq<World>, acts: seq<Action>, i: nat, j: nat, group: set<NodeId>) {
    forall a, b :: a in group && b in group ==> exists hops :: IsPath(ws, acts, a, i, b, j, hops)
  }

  /** A group left to itself from world `i` to world `j`: confined, and connected by paths of syncs. */
  ghost predicate LeftAlone(rule: Rule, ws: seq<World>, acts: seq<Action>, i: nat, j: nat, group: set<NodeId>) {
    && Lawful(rule) && IsRun(rule, ws, acts) && i <= j < |ws| && group <= ws[i].nodes.Keys
    && (forall k :: i <= k < j ==> Confined(ws[k], acts[k], group))
    && Connects(ws, acts, i, j, group)
  }

  /** What one member knows at the end of the schedule, any other does. */
  lemma HeardEverything(rule: Rule, ws: seq<World>, acts: seq<Action>, i: nat, j: nat, group: set<NodeId>,
                        a: NodeId, b: NodeId, r: NodeId)
    requires LeftAlone(rule, ws, acts, i, j, group) && a in group && b in group
    ensures a in ws[j].nodes && b in ws[j].nodes && At(DocOf(ws[j], a).vv, r) <= At(DocOf(ws[j], b).vv, r)
  {
    var c := KnownAtStart(rule, ws, acts, i, j, group, a, r);
    var hops :| IsPath(ws, acts, c, i, b, j, hops);
    PathCarries(rule, ws, acts, c, i, b, j, hops);
    assert At(DocOf(ws[i], c).vv, r) <= At(DocOf(ws[j], b).vv, r);
  }

  /**
   Epidemic convergence: a group of nodes that stops writing and merges no more syncs from outside, such as
   the survivors after others have stopped, crashed or been cut off, agrees in the end, once a schedule of
   syncs has connected every ordered pair of its members: on vector, writes, members and lookups.
   */
  lemma Converges(rule: Rule, ws: seq<World>, acts: seq<Action>, i: nat, j: nat, group: set<NodeId>,
                  a: NodeId, b: NodeId)
    requires LeftAlone(rule, ws, acts, i, j, group) && a in group && b in group
    ensures a in ws[j].nodes && b in ws[j].nodes
    ensures DocOf(ws[j], a).vv == DocOf(ws[j], b).vv && DocOf(ws[j], a).writes == DocOf(ws[j], b).writes
    ensures MemberIds(DocOf(ws[j], a), rule) == MemberIds(DocOf(ws[j], b), rule)
    ensures Members(DocOf(ws[j], a), rule) == Members(DocOf(ws[j], b), rule)
    ensures forall name :: Lookup(DocOf(ws[j], a), rule, name) == Lookup(DocOf(ws[j], b), rule, name)
  {
    GroupStays(rule, ws, acts, i, j, group);
    forall r ensures At(DocOf(ws[j], a).vv, r) == At(DocOf(ws[j], b).vv, r) {
      HeardEverything(rule, ws, acts, i, j, group, a, b, r);
      HeardEverything(rule, ws, acts, i, j, group, b, a, r);
    }
    SameVectorSameDoc(rule, ws, acts, j, a, b);
  }

  /** What the group agrees on is everything its members had at the start, and nothing else. */
  lemma AgreesOnUnion(rule: Rule, ws: seq<World>, acts: seq<Action>, i: nat, j: nat, group: set<NodeId>,
                      a: NodeId, v: Write)
    requires LeftAlone(rule, ws, acts, i, j, group) && a in group
    ensures a in ws[j].nodes
    ensures v in DocOf(ws[j], a).writes <==> exists c :: c in group && v in DocOf(ws[i], c).writes
  {
    GroupStays(rule, ws, acts, i, j, group);
    RunEvolves(rule, ws, acts, i, j);
    RunInv(rule, ws, acts, i);
    RunInv(rule, ws, acts, j);
    if v in DocOf(ws[j], a).writes {
      var c := KnownAtStart(rule, ws, acts, i, j, group, a, v.dot.replica);
      HeldBefore(ws[i], ws[j], a, v, c);
    }
    if c :| c in group && v in DocOf(ws[i], c).writes {
      var hops :| IsPath(ws, acts, c, i, a, j, hops);
      PathCarries(rule, ws, acts, c, i, a, j, hops);
      HeldLater(ws[i], ws[j], c, v, a);
    }
  }

  /** Whoever covered a write early on held it then. */
  lemma HeldBefore(w: World, w': World, a: NodeId, v: Write, c: NodeId)
    requires Replicated(w) && Replicated(w') && Evolves(w.history, DocsOf(w), w'.history, DocsOf(w'))
    requires a in w'.nodes && v in DocOf(w', a).writes && c in w.nodes
    requires At(DocOf(w', a).vv, v.dot.replica) <= At(DocOf(w, c).vv, v.dot.replica)
    ensures v in DocOf(w, c).writes
  {
    assert DocsOf(w)[c] == DocOf(w, c) && DocsOf(w')[a] == DocOf(w', a);
    assert Exact(w'.history, DocOf(w', a)) && Exact(w.history, DocOf(w, c));
    assert Covers(DocOf(w', a).vv, v.dot);
  }

  lemma HeldLater(w: World, w': World, c: NodeId, v: Write, a: NodeId)
    requires Replicated(w) && Replicated(w') && w.history <= w'.history
    requires c in w.nodes && v in DocOf(w, c).writes && a in w'.nodes && Leq(DocOf(w, c).vv, DocOf(w', a).vv)
    ensures v in DocOf(w', a).writes
  {
    assert DocsOf(w)[c] == DocOf(w, c) && DocsOf(w')[a] == DocOf(w', a);
    assert Exact(w'.history, DocOf(w', a)) && Exact(w.history, DocOf(w, c));
    assert At(DocOf(w, c).vv, v.dot.replica) <= At(DocOf(w', a).vv, v.dot.replica);
  }

  lemma SameVectorSameDoc(rule: Rule, ws: seq<World>, acts: seq<Action>, j: nat, a: NodeId, b: NodeId)
    requires Lawful(rule) && IsRun(rule, ws, acts) && j < |ws| && a in ws[j].nodes && b in ws[j].nodes
    requires forall r :: At(DocOf(ws[j], a).vv, r) == At(DocOf(ws[j], b).vv, r)
    ensures DocOf(ws[j], a).vv == DocOf(ws[j], b).vv && DocOf(ws[j], a).writes == DocOf(ws[j], b).writes
    ensures MemberIds(DocOf(ws[j], a), rule) == MemberIds(DocOf(ws[j], b), rule)
    ensures Members(DocOf(ws[j], a), rule) == Members(DocOf(ws[j], b), rule)
    ensures forall name :: Lookup(DocOf(ws[j], a), rule, name) == Lookup(DocOf(ws[j], b), rule, name)
  {
    RunInv(rule, ws, acts, j);
    var docs := DocsOf(ws[j]);
    assert docs[a] == DocOf(ws[j], a) && docs[b] == DocOf(ws[j], b);
    LeqAntisymmetric(docs[a].vv, docs[b].vv);
    EqualVectorsEqualWrites(ws[j].history, docs, a, b);
    SameWritesSameView(docs[a], docs[b], rule);
    SameWritesSameLookups(docs[a], docs[b], rule);
  }

  /** What a document shows depends on its writes alone. */
  lemma SameWritesSameEntries(x: Doc, y: Doc, rule: Rule)
    requires x.writes == y.writes
    ensures forall p :: Entry(x, rule, p) == Entry(y, rule, p)
    ensures NodeIds(x) == NodeIds(y) && forall n :: ServiceNames(x, n) == ServiceNames(y, n)
  {
    forall p ensures Entry(x, rule, p) == Entry(y, rule, p) {
      assert Candidates(x, p) == Candidates(y, p);
    }
  }

  lemma SameEntriesSameServices(x: Doc, y: Doc, rule: Rule, n: NodeId)
    requires forall p :: Entry(x, rule, p) == Entry(y, rule, p)
    requires ServiceNames(x, n) == ServiceNames(y, n)
    ensures NodeServices(x, rule, n) == NodeServices(y, rule, n)
  {
  }

  lemma SameEntriesSameMembers(x: Doc, y: Doc, rule: Rule)
    requires forall n :: NodeEntry(x, rule, n) == NodeEntry(y, rule, n)
    requires forall n :: NodeServices(x, rule, n) == NodeServices(y, rule, n)
    requires NodeIds(x) == NodeIds(y)
    ensures Members(x, rule) == Members(y, rule)
  {
  }

  lemma SameWritesSameView(x: Doc, y: Doc, rule: Rule)
    requires x.writes == y.writes
    ensures MemberIds(x, rule) == MemberIds(y, rule) && Members(x, rule) == Members(y, rule)
  {
    SameWritesSameEntries(x, y, rule);
    forall n ensures NodeServices(x, rule, n) == NodeServices(y, rule, n) {
      SameEntriesSameServices(x, y, rule, n);
    }
    SameEntriesSameMembers(x, y, rule);
  }

  lemma SameWritesSameLookups(x: Doc, y: Doc, rule: Rule)
    requires x.writes == y.writes
    ensures forall name :: Lookup(x, rule, name) == Lookup(y, rule, name)
  {
    SameWritesSameEntries(x, y, rule);
    assert ServiceOwners(x) == ServiceOwners(y);
  }
}
