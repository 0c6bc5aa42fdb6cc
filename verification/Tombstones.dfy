/**
 What the writes of a cluster can look like, and what follows for readers: a removed node stays removed,
 and service lookup never disagrees with the member list.
 */
module Tombstones {
  import opened Causality
  import opened Document
  import opened Membership
  import opened Replication
  import opened Daemon
  import opened Sessions
  import opened Cluster
  import opened ClusterInvariant

  /** The node tombstone that its author wrote just before tombstoning services of the same node. */
  ghost predicate Precedes(v: Write, w: Write, n: NodeId) {
    && v.path == NodePath(n) && v.op == Set(DEAD)
    && v.dot.replica == w.dot.replica && v.dot.counter < w.dot.counter
    && Covers(v.seen, Dot(n, 1))
  }

  ghost predicate IsBirth(w: Write, n: NodeId) {
    && w.path == NodePath(n) && w.dot == Dot(n, 1) && w.seen == EMPTY
    && w.op.Set? && !IsDead(w.op.record) && w.op.record.addr.Some? && w.op.record.joinedAt.Some?
  }

  ghost predicate IsOwnService(w: Write, n: NodeId) {
    && w.dot.replica == n && w.dot.counter >= 2
    && (w.op.Remove? || w.op.record.port.Some?)
  }

  /** A node is added once, as its own first write; everything else on its path is a tombstone. */
  ghost predicate Shaped(history: set<Write>, w: Write) {
    match w.path
    case NodePath(n) => w.op == Set(DEAD) || IsBirth(w, n)
    case ServicePath(n, _) =>
      IsOwnService(w, n) || (w.op == Set(DEAD) && exists v :: v in history && Precedes(v, w, n))
  }

  ghost predicate AllShaped(history: set<Write>) {
    forall w :: w in history ==> Shaped(history, w)
  }

  // -- The shape is kept --------------------------------------------------------------------------

  lemma AddShaped(history: set<Write>, w: Write)
    requires AllShaped(history) && Shaped(history + {w}, w)
    ensures AllShaped(history + {w})
  {
    forall v | v in history + {w} ensures Shaped(history + {w}, v) {
      if v in history && v.path.ServicePath? && !IsOwnService(v, v.path.owner) {
        assert Shaped(history, v);
        var u :| u in history && Precedes(u, v, v.path.owner);
        assert u in history + {w};
      }
    }
  }

  lemma WriteShaped(history: set<Write>, doc: Doc, path: Path, op: Op)
    requires AllShaped(history) && doc.writes <= history
    requires Shaped(history + {NextWrite(doc, path, op)}, NextWrite(doc, path, op))
    ensures AllShaped(history + LocalWrite(doc, path, op).writes)
  {
    AddShaped(history, NextWrite(doc, path, op));
    assert history + LocalWrite(doc, path, op).writes == history + {NextWrite(doc, path, op)};
  }

  lemma {:induction false} ServiceTombstonesShaped(history: set<Write>, doc: Doc, id: NodeId, names: seq<string>,
                                                   v: Write)
    requires AllShaped(history) && doc.writes <= history && v in history
    requires Precedes(v, NextWrite(doc, NodePath(id), Remove), id)
    ensures AllShaped(history + TombstoneServices(doc, id, names).writes)
    decreases |names|
  {
    if names == [] {
      assert history + doc.writes == history;
    } else {
      var path := ServicePath(id, names[0]);
      var mid := LocalWrite(doc, path, Set(DEAD));
      var history1 := history + mid.writes;
      assert Precedes(v, NextWrite(doc, path, Set(DEAD)), id);
      WriteShaped(history, doc, path, Set(DEAD));
      ServiceTombstonesShaped(history1, mid, id, names[1..], v);
      TombstonesGrow(mid, id, names[1..]);
      assert history1 + TombstoneServices(mid, id, names[1..]).writes
          == history + TombstoneServices(doc, id, names).writes;
    }
  }

  /** Whoever sees a live service of a node has seen the node's first write. */
  lemma ServiceImpliesBirth(history: set<Write>, doc: Doc, rule: Rule, id: NodeId, name: string)
    requires AllShaped(history) && doc.writes <= history && ValidDoc(doc) && Lawful(rule)
    requires HasPort(TombstoneNode(doc, id), rule, id, name)
    ensures Covers(doc.vv, Dot(id, 1))
  {
    EntryHasWrite(TombstoneNode(doc, id), rule, ServicePath(id, name));
    var w :| w in Candidates(TombstoneNode(doc, id), ServicePath(id, name))
          && w.op == Set(ServiceEntry(TombstoneNode(doc, id), rule, id, name).value);
    assert w in doc.writes && Shaped(history, w);
    assert IsOwnService(w, id);
  }

  lemma RemoveShaped(history: set<Write>, doc: Doc, rule: Rule, id: NodeId, names: seq<string>)
    requires AllShaped(history) && doc.writes <= history && ValidDoc(doc) && Lawful(rule)
    requires ServicesToRemove(doc, rule, id, names)
    ensures AllShaped(history + RemoveNode(doc, id, names).writes)
  {
    var v := NextWrite(doc, NodePath(id), Set(DEAD));
    var mid := TombstoneNode(doc, id);
    WriteShaped(history, doc, NodePath(id), Set(DEAD));
    var history1 := history + mid.writes;
    assert v in history1;
    if names != [] {
      assert names[0] in names;
      ServiceImpliesBirth(history, doc, rule, id, names[0]);
      ServiceTombstonesShaped(history1, mid, id, names, v);
      TombstonesGrow(mid, id, names);
      assert history1 + RemoveNode(doc, id, names).writes == history + RemoveNode(doc, id, names).writes;
    }
  }

  /** The writes a step makes have the right shape. */
  lemma StepShaped(history: set<Write>, node: Node, rule: Rule, step: Step)
    requires AllShaped(history) && node.shared.doc.writes <= history && ValidDoc(node.shared.doc) && Lawful(rule)
    requires Can(node, rule, step) && OwnCounter(node.shared) >= 1
    requires step.Merge? ==> step.delta.writes <= history
    ensures AllShaped(history + Do(node, rule, step).shared.doc.writes)
  {
    var doc := node.shared.doc;
    match step
    case Finish(t, names) => RemoveShaped(history, doc, rule, node.tasks[t].remote, names);
    case Stop(names) => RemoveShaped(history, doc, rule, doc.replica, names);
    case AddService(name, port, metadata) =>
      WriteShaped(history, doc, ServicePath(doc.replica, name), Set(ServiceRecord(port, metadata)));
    case DropService(name) => WriteShaped(history, doc, ServicePath(doc.replica, name), Remove);
    case _ => assert history + Do(node, rule, step).shared.doc.writes == history;
  }

  lemma StartShaped(history: set<Write>, id: NodeId, addr: string, metadata: map<string, string>, now: nat)
    requires AllShaped(history)
    ensures AllShaped(history + StartNode(id, addr, metadata, now).shared.doc.writes)
  {
    WriteShaped(history, NewDoc(id), NodePath(id), Set(AliveRecord(addr, metadata, now)));
  }

  lemma ActorWrites(w: World, a: NodeId)
    requires Replicated(w) && a in w.nodes
    ensures DocOf(w, a).writes <= w.history && ValidDoc(DocOf(w, a)) && OwnCounter(w.nodes[a].shared) >= 1
  {
    assert DocsOf(w)[a] == DocOf(w, a);
    ActorValid(w, a);
  }

  lemma ActionShaped(w: World, rule: Rule, act: Action)
    requires Lawful(rule) && Replicated(w) && Wired(w) && Enabled(w, rule, act) && AllShaped(w.history)
    ensures AllShaped(Apply(w, rule, act).history)
  {
    if HasStep(act) {
      ActionInput(w, rule, act);
      ActorWrites(w, Actor(w, act));
      StepShaped(w.history, w.nodes[Actor(w, act)], rule, StepOf(w, act));
    } else if act.Start? {
      StartShaped(w.history, act.id, act.addr, act.metadata, act.now);
    }
  }

  lemma {:induction false} RunShaped(rule: Rule, ws: seq<World>, acts: seq<Action>, i: nat)
    requires Lawful(rule) && IsRun(rule, ws, acts) && i < |ws|
    ensures AllShaped(ws[i].history)
    decreases i
  {
    if i > 0 {
      RunShaped(rule, ws, acts, i - 1);
      ShapedNext(rule, ws, acts, i - 1);
    }
  }

  lemma ShapedNext(rule: Rule, ws: seq<World>, acts: seq<Action>, i: nat)
    requires Lawful(rule) && IsRun(rule, ws, acts) && i < |acts| && AllShaped(ws[i].history)
    ensures AllShaped(ws[i + 1].history)
  {
    assert Enabled(ws[i], rule, acts[i]);
    assert Replicated(ws[i]) && Wired(ws[i]) by {
      RunInv(rule, ws, acts, i);
    }
    ActionShaped(ws[i], rule, acts[i]);
  }

  lemma {:induction false} TombstonedWrites(doc: Doc, id: NodeId, names: seq<string>, v: Write)
    requires v in TombstoneServices(doc, id, names).writes
    ensures v in doc.writes || (v.path.ServicePath? && v.op == Set(DEAD))
    decreases |names|
  {
    if names != [] {
      TombstonedWrites(LocalWrite(doc, ServicePath(id, names[0]), Set(DEAD)), id, names[1..], v);
    }
  }

  // -- Removal is permanent -----------------------------------------------------------------------

  /** `v` is a tombstone of `n` whose writer had seen `n` join. */
  ghost predicate FinalTombstone(v: Write, n: NodeId) {
    v.path == NodePath(n) && v.op == Set(DEAD) && Covers(v.seen, Dot(n, 1))
  }

  lemma FinalMeansUnlisted(doc: Doc, history: set<Write>, rule: Rule, v: Write, n: NodeId)
    requires AllShaped(history) && doc.writes <= history && Lawful(rule)
    requires v in doc.writes && FinalTombstone(v, n)
    ensures !Listed(doc, rule, n) && n !in MemberIds(doc, rule) && n !in Members(doc, rule)
  {
    if Listed(doc, rule, n) {
      EntryHasWrite(doc, rule, NodePath(n));
    }
  }

  /** The action makes node `a` remove node `n`: at the end of a session with it, or of itself at shutdown. */
  ghost predicate Removes(w: World, act: Action, a: NodeId, n: NodeId) {
    && act.Local? && act.a == a && a in w.nodes
    && ((act.step.Finish? && act.step.task in w.nodes[a].tasks && w.nodes[a].tasks[act.step.task].remote == n)
        || (act.step.Stop? && n == a))
  }

  lemma StepPlants(node: Node, rule: Rule, step: Step, n: NodeId)
    requires Can(node, rule, step)
    requires (step.Finish? && node.tasks[step.task].remote == n) || (step.Stop? && node.shared.doc.replica == n)
    ensures NextWrite(node.shared.doc, NodePath(n), Set(DEAD)) in Do(node, rule, step).shared.doc.writes
  {
    TombstonesGrow(TombstoneNode(node.shared.doc, n), n, step.names);
  }

  lemma RemovalPlants(w: World, rule: Rule, act: Action, a: NodeId, n: NodeId)
    requires Replicated(w) && Enabled(w, rule, act) && Removes(w, act, a, n)
    ensures NextWrite(DocOf(w, a), NodePath(n), Set(DEAD)) in DocOf(Apply(w, rule, act), a).writes
  {
    assert DocsOf(w)[a].replica == a;
    StepPlants(w.nodes[a], rule, act.step, n);
    StepActionMovesOne(w, rule, act);
  }

  /**
   Tombstone permanence: after a node that had seen `n` join removes `n`, no replica whose vector covers
   that removal ever lists `n` again, the remover least of all, whatever stale peers send.
   */
  lemma RemovedForGood(rule: Rule, ws: seq<World>, acts: seq<Action>, i: nat, j: nat, a: NodeId, n: NodeId, b: NodeId)
    requires Lawful(rule) && IsRun(rule, ws, acts) && i < j < |ws|
    requires Removes(ws[i], acts[i], a, n) && Covers(DocOf(ws[i], a).vv, Dot(n, 1))
    requires b in ws[j].nodes && (b == a || Covers(DocOf(ws[j], b).vv, NextDot(DocOf(ws[i], a))))
    ensures n !in MemberIds(DocOf(ws[j], b), rule) && n !in Members(DocOf(ws[j], b), rule)
  {
    var v := NextWrite(DocOf(ws[i], a), NodePath(n), Set(DEAD));
    TombstoneReaches(rule, ws, acts, i, j, a, n, b);
    assert AllShaped(ws[j].history) && DocOf(ws[j], b).writes <= ws[j].history by {
      RunShaped(rule, ws, acts, j);
      RunInv(rule, ws, acts, j);
      ActorWrites(ws[j], b);
    }
    FinalMeansUnlisted(DocOf(ws[j], b), ws[j].history, rule, v, n);
  }

  lemma TombstoneReaches(rule: Rule, ws: seq<World>, acts: seq<Action>, i: nat, j: nat, a: NodeId, n: NodeId, b: NodeId)
    requires Lawful(rule) && IsRun(rule, ws, acts) && i < j < |ws| && Removes(ws[i], acts[i], a, n)
    requires b in ws[j].nodes && (b == a || Covers(DocOf(ws[j], b).vv, NextDot(DocOf(ws[i], a))))
    ensures NextWrite(DocOf(ws[i], a), NodePath(n), Set(DEAD)) in DocOf(ws[j], b).writes
  {
    RemovalPlanted(rule, ws, acts, i, a, n);
    RunReaches(rule, ws, acts, i + 1, j, a, NextWrite(DocOf(ws[i], a), NodePath(n), Set(DEAD)), b);
  }

  lemma RunReaches(rule: Rule, ws: seq<World>, acts: seq<Action>, i: nat, j: nat, a: NodeId, v: Write, b: NodeId)
    requires Lawful(rule) && IsRun(rule, ws, acts) && i <= j < |ws|
    requires a in ws[i].nodes && v in DocOf(ws[i], a).writes
    requires b in ws[j].nodes && (b == a || Covers(DocOf(ws[j], b).vv, v.dot))
    ensures v in DocOf(ws[j], b).writes
  {
    assert Replicated(ws[i]) && Replicated(ws[j]) by {
      RunInv(rule, ws, acts, i);
      RunInv(rule, ws, acts, j);
    }
    RunEvolves(rule, ws, acts, i, j);
    WriteReaches(ws[i], ws[j], a, v, b);
  }

  lemma RemovalPlanted(rule: Rule, ws: seq<World>, acts: seq<Action>, i: nat, a: NodeId, n: NodeId)
    requires Lawful(rule) && IsRun(rule, ws, acts) && i < |acts| && Removes(ws[i], acts[i], a, n)
    ensures a in ws[i + 1].nodes
    ensures NextWrite(DocOf(ws[i], a), NodePath(n), Set(DEAD)) in DocOf(ws[i + 1], a).writes
  {
    assert Enabled(ws[i], rule, acts[i]);
    assert Replicated(ws[i]) by {
      RunInv(rule, ws, acts, i);
    }
    RemovalPlants(ws[i], rule, acts[i], a, n);
  }

  /** A write of `a` is, later on, in every document whose vector covers it, and in `a`'s own. */
  lemma WriteReaches(w: World, w': World, a: NodeId, v: Write, b: NodeId)
    requires Replicated(w) && Replicated(w') && Evolves(w.history, DocsOf(w), w'.history, DocsOf(w'))
    requires a in w.nodes && v in DocOf(w, a).writes && b in w'.nodes
    requires b == a || Covers(DocOf(w', b).vv, v.dot)
    ensures v in DocOf(w', b).writes
  {
    var docs, docs' := DocsOf(w), DocsOf(w');
    assert docs[a] == DocOf(w, a) && docs'[b] == DocOf(w', b);
    assert Exact(w.history, docs[a]) && Exact(w'.history, docs'[b]);
    if b == a {
      assert Leq(docs[a].vv, docs'[a].vv);
      assert At(docs[a].vv, v.dot.replica) <= At(docs'[a].vv, v.dot.replica);
    }
  }

  /** The rule that prefers `w` over everything concurrent with it. */
  ghost function Preferring(w: Write): Rule {
    s => if w in s || s == {} then w else Any(s)
  }

  ghost function Any(s: set<Write>): Write
    requires s != {}
    ensures Any(s) in s
  {
    var v :| v in s; v
  }

  /**
   Exactly when a removal is final: a document of the cluster leaves `n` unlisted whatever the conflict rule
   if and only if it has not heard of `n` joining, or holds a tombstone written by somebody who had.
   */
  lemma UnlistedForEveryRule(w: World, b: NodeId, n: NodeId)
    requires Replicated(w) && AllShaped(w.history) && b in w.nodes
    ensures (forall r: Rule :: Lawful(r) ==> !Listed(DocOf(w, b), r, n))
       <==> (forall v :: v in DocOf(w, b).writes ==> !IsBirth(v, n))
            || (exists v :: v in DocOf(w, b).writes && FinalTombstone(v, n))
  {
    var doc := DocOf(w, b);
    ActorWrites(w, b);
    if birth :| birth in doc.writes && IsBirth(birth, n) {
      if v :| v in doc.writes && FinalTombstone(v, n) {
        forall r: Rule | Lawful(r) ensures !Listed(doc, r, n) {
          FinalMeansUnlisted(doc, w.history, r, v, n);
        }
      } else {
        BirthIsListed(w, doc, birth, n);
      }
    } else {
      forall r: Rule | Lawful(r) ensures !Listed(doc, r, n) {
        if Listed(doc, r, n) {
          EntryHasWrite(doc, r, NodePath(n));
        }
      }
    }
  }

  lemma PreferringIsLawful(w: Write)
    ensures Lawful(Preferring(w))
  {
  }

  /** No write about `n` was made by somebody who had seen `n` join. */
  ghost predicate Unseen(doc: Doc, n: NodeId) {
    forall v :: v in doc.writes && v.path == NodePath(n) ==> !Covers(v.seen, Dot(n, 1))
  }

  lemma UnseenIsListed(doc: Doc, birth: Write, n: NodeId)
    requires birth in doc.writes && IsBirth(birth, n) && Unseen(doc, n)
    ensures Lawful(Preferring(birth)) && Listed(doc, Preferring(birth), n)
  {
    assert birth in Candidates(doc, NodePath(n));
    assert NodeEntry(doc, Preferring(birth), n) == Some(birth.op.record);
  }

  lemma BirthIsListed(w: World, doc: Doc, birth: Write, n: NodeId)
    requires AllShaped(w.history) && doc.writes <= w.history && birth in doc.writes && IsBirth(birth, n)
    requires forall v :: v in doc.writes ==> !FinalTombstone(v, n)
    ensures exists r: Rule :: Lawful(r) && Listed(doc, r, n)
  {
    forall v | v in doc.writes && v.path == NodePath(n) ensures !Covers(v.seen, birth.dot) {
      assert Shaped(w.history, v);
    }
    UnseenIsListed(doc, birth, n);
  }

  // -- Lookup agrees with membership --------------------------------------------------------------

  /** Whoever holds a service tombstone also holds the node tombstone written just before it. */
  lemma DeadServiceDeadNode(doc: Doc, history: set<Write>, s: Write, n: NodeId)
    requires AllShaped(history) && Exact(history, doc)
    requires s in doc.writes && s.path.ServicePath? && s.path.owner == n && !IsOwnService(s, n)
    ensures exists u :: u in doc.writes && FinalTombstone(u, n)
  {
    assert Shaped(history, s);
    var u :| u in history && Precedes(u, s, n);
    assert Covers(doc.vv, u.dot);
  }

  /** No service of a listed node reads as a tombstone. */
  lemma NoPhantom(doc: Doc, history: set<Write>, rule: Rule, n: NodeId, name: string)
    requires AllShaped(history) && Exact(history, doc) && Lawful(rule)
    ensures !Phantom(doc, rule, n, name)
  {
    if Offers(doc, rule, n, name) {
      EntryHasWrite(doc, rule, NodePath(n));
      EntryHasWrite(doc, rule, ServicePath(n, name));
      var v :| v in Candidates(doc, NodePath(n)) && v.op == Set(NodeEntry(doc, rule, n).value);
      var s :| s in Candidates(doc, ServicePath(n, name)) && s.op == Set(ServiceEntry(doc, rule, n, name).value);
      assert Shaped(history, v) && Shaped(history, s);
      assert IsBirth(v, n);
      if !IsOwnService(s, n) {
        DeadServiceDeadNode(doc, history, s, n);
      }
    }
  }

  /** In every reachable world the member list and the ids that events are about name the same nodes. */
  lemma MembersAreMemberIds(rule: Rule, ws: seq<World>, acts: seq<Action>, i: nat, a: NodeId)
    requires Lawful(rule) && IsRun(rule, ws, acts) && i < |ws| && a in ws[i].nodes
    ensures Members(DocOf(ws[i], a), rule).Keys == MemberIds(DocOf(ws[i], a), rule).Keys
  {
    var doc := DocOf(ws[i], a);
    assert doc.writes <= ws[i].history by {
      RunInv(rule, ws, acts, i);
      ActorWrites(ws[i], a);
    }
    RunShaped(rule, ws, acts, i);
    forall n ensures n in Members(doc, rule) <==> n in MemberIds(doc, rule) {
      ListedIsMember(doc, ws[i].history, rule, n);
    }
  }

  lemma ListedIsMember(doc: Doc, history: set<Write>, rule: Rule, n: NodeId)
    requires AllShaped(history) && doc.writes <= history && Lawful(rule)
    ensures n in Members(doc, rule) <==> n in MemberIds(doc, rule)
  {
    MembersExact(doc, rule, n);
    MemberIdsExact(doc, rule, n);
    if Listed(doc, rule, n) {
      EntryHasWrite(doc, rule, NodePath(n));
      var v :| v in Candidates(doc, NodePath(n)) && v.op == Set(NodeEntry(doc, rule, n).value);
      assert Shaped(history, v);
    }
  }

  /** In every reachable world, looking a service up is scanning the members for it. */
  lemma LookupAgrees(rule: Rule, ws: seq<World>, acts: seq<Action>, i: nat, a: NodeId, name: string)
    requires Lawful(rule) && IsRun(rule, ws, acts) && i < |ws| && a in ws[i].nodes
    ensures Lookup(DocOf(ws[i], a), rule, name) == ScanMembers(DocOf(ws[i], a), rule, name)
  {
    var doc := DocOf(ws[i], a);
    RunInv(rule, ws, acts, i);
    RunShaped(rule, ws, acts, i);
    assert DocsOf(ws[i])[a] == doc;
    forall n ensures !Phantom(doc, rule, n, name) {
      NoPhantom(doc, ws[i].history, rule, n, name);
    }
    LookupMatchesScan(doc, rule, name);
  }
}
