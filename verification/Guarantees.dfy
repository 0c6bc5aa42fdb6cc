/** What the protocol promises in every world of every run. */
module Guarantees {
  import opened Causality
  import opened Document
  import opened Membership
  import opened Replication
  import opened Daemon
  import opened Sessions
  import opened Cluster
  import opened ClusterInvariant

  // -- Gaps ---------------------------------------------------------------------------------------

  /** What a replica stores as a peer's vector never runs ahead of that peer. */
  lemma StoredVectorsBehind(rule: Rule, ws: seq<World>, acts: seq<Action>, i: nat, a: NodeId, n: NodeId)
    requires Lawful(rule) && IsRun(rule, ws, acts) && i < |ws|
    requires a in ws[i].nodes && n in ws[i].nodes[a].shared.peers
    ensures n in ws[i].nodes && Leq(ws[i].nodes[a].shared.peers[n].lastVv, DocOf(ws[i], n).vv)
  {
    RunInv(rule, ws, acts, i);
    assert GoodNode(ws[i], ws[i].history, DocsOf(ws[i]), a, ws[i].nodes[a]);
    assert GoodClaim(DocsOf(ws[i]), n, ws[i].nodes[a].shared.peers[n].lastVv);
  }

  /** A replica holds every write its own vector covers, and its vector runs ahead of nobody's counter. */
  lemma NoGaps(rule: Rule, ws: seq<World>, acts: seq<Action>, i: nat, a: NodeId, r: NodeId, k: nat)
    requires Lawful(rule) && IsRun(rule, ws, acts) && i < |ws|
    requires a in ws[i].nodes && 1 <= k <= At(DocOf(ws[i], a).vv, r)
    ensures r in ws[i].nodes && At(DocOf(ws[i], a).vv, r) <= At(DocOf(ws[i], r).vv, r)
    ensures exists w :: w in DocOf(ws[i], a).writes && w in DocOf(ws[i], r).writes && w.dot == Dot(r, k)
  {
    RunInv(rule, ws, acts, i);
    assert DocsOf(ws[i])[a] == DocOf(ws[i], a);
    NoGap(ws[i].history, DocsOf(ws[i]), a, r, k);
  }

  // -- The fast form refines the simple one --------------------------------------------------------

  lemma TwoDeltasSame(history: set<Write>, docs: Docs, s: NodeId, t: NodeId, d: Delta, e: Delta)
    requires Consistent(history, docs) && GoodDelta(history, docs, s, t, d) && GoodDelta(history, docs, s, t, e)
    requires d.vv == e.vv
    ensures MergeDelta(docs[t], d) == MergeDelta(docs[t], e)
  {
    DeltaActsAsFull(history, docs, s, t, d);
    DeltaActsAsFull(history, docs, s, t, e);
  }

  lemma DeltaActsAsAll(history: set<Write>, docs: Docs, a: NodeId, n: NodeId, last: VersionVector)
    requires Consistent(history, docs) && a in docs && GoodClaim(docs, n, last)
    ensures MergeDelta(docs[n], DeltaSince(docs[a], last)) == MergeDelta(docs[n], DeltaSince(docs[a], EMPTY))
  {
    EmptyClaim(docs, n);
    MakeDelta(history, docs, a, n, last);
    MakeDelta(history, docs, a, n, EMPTY);
    TwoDeltasSame(history, docs, a, n, DeltaSince(docs[a], last), DeltaSince(docs[a], EMPTY));
  }

  lemma MergeCovers(doc: Doc, d: Delta)
    ensures Leq(d.vv, MergeDelta(doc, d).vv)
  {
  }

  /**
   In every reachable world, a peer that merges the delta computed from the vector stored for it ends up
   exactly where the full delta would have put it, and covers the sender's vector.
   */
  lemma DeltaSyncIsFullSync(rule: Rule, ws: seq<World>, acts: seq<Action>, i: nat, a: NodeId, n: NodeId)
    requires Lawful(rule) && IsRun(rule, ws, acts) && i < |ws|
    requires a in ws[i].nodes && n in ws[i].nodes[a].shared.peers && n in ws[i].nodes
    ensures var last := ws[i].nodes[a].shared.peers[n].lastVv;
      && MergeDelta(DocOf(ws[i], n), DeltaSince(DocOf(ws[i], a), last))
         == MergeDelta(DocOf(ws[i], n), DeltaSince(DocOf(ws[i], a), EMPTY))
      && Leq(DocOf(ws[i], a).vv, MergeDelta(DocOf(ws[i], n), DeltaSince(DocOf(ws[i], a), last)).vv)
  {
    var last := ws[i].nodes[a].shared.peers[n].lastVv;
    var docs := DocsOf(ws[i]);
    assert docs[a] == DocOf(ws[i], a) && docs[n] == DocOf(ws[i], n);
    MergeCovers(docs[n], DeltaSince(docs[a], last));
    StoredVectorsBehind(rule, ws, acts, i, a, n);
    assert Consistent(ws[i].history, docs) by {
      RunInv(rule, ws, acts, i);
    }
    DeltaActsAsAll(ws[i].history, docs, a, n, last);
  }

  /** The part of a document that a vector covers. */
  function Upto(doc: Doc, vv: VersionVector): Delta {
    Delta(Covered(doc, vv), vv)
  }

  lemma WireDelta(w: World, t: TaskId, m: Message)
    requires Wired(w) && t in w.wires && m in w.wires[t] && m.MembershipSync?
    ensures t.conn in w.ends && m.senderVv == m.delta.vv
    ensures GoodDelta(w.history, DocsOf(w), Far(w, t), Owner(w, t), m.delta)
  {
    assert GoodWire(w, w.history, DocsOf(w), t, w.wires[t]);
  }

  /**
   A sync under way, however old and from whatever stored vector it was computed, still does for its
   receiver what the sender's whole document as of the message's vector would do.
   */
  lemma SyncUnderWayIsFull(rule: Rule, ws: seq<World>, acts: seq<Action>, i: nat, t: TaskId, m: Message)
    requires Lawful(rule) && IsRun(rule, ws, acts) && i < |ws|
    requires t in ws[i].wires && m in ws[i].wires[t] && m.MembershipSync?
    ensures t.conn in ws[i].ends && Owner(ws[i], t) in ws[i].nodes && Far(ws[i], t) in ws[i].nodes
    ensures var from, to := DocOf(ws[i], Far(ws[i], t)), DocOf(ws[i], Owner(ws[i], t));
      && MergeDelta(to, m.delta) == MergeDelta(to, Upto(from, m.senderVv))
      && Leq(m.senderVv, from.vv) && Leq(m.senderVv, MergeDelta(to, m.delta).vv)
    ensures ValidDelta(m.delta)
  {
    assert Consistent(ws[i].history, DocsOf(ws[i])) && Wired(ws[i]) by {
      RunInv(rule, ws, acts, i);
    }
    WireDelta(ws[i], t, m);
    var docs, s, r := DocsOf(ws[i]), Far(ws[i], t), Owner(ws[i], t);
    DeltaActsAsFull(ws[i].history, docs, s, r, m.delta);
    GoodDeltaIsValid(ws[i].history, docs, s, r, m.delta);
    MergeCovers(docs[r], m.delta);
  }

  // -- Sessions and wake-ups ------------------------------------------------------------------------

  /** Per remote node, live sessions and handles balance, and never exceed the handle plus the leaves. */
  lemma SessionsBalance(rule: Rule, ws: seq<World>, acts: seq<Action>, i: nat, a: NodeId, n: NodeId)
    requires Lawful(rule) && IsRun(rule, ws, acts) && i < |ws| && a in ws[i].nodes
    ensures var node := ws[i].nodes[a];
      && |LiveTasks(node, n)| + node.stray[n] == Present(node, n) + node.left[n]
      && |LiveTasks(node, n)| <= Present(node, n) + node.left[n]
  {
    RunInv(rule, ws, acts, i);
    assert Balanced(ws[i].nodes[a], n);
  }

  /** Node `a` processes no leave command before world `i`. */
  ghost predicate LeaveFree(acts: seq<Action>, i: nat, a: NodeId) {
    forall k :: 0 <= k < i && k < |acts| && acts[k].Local? && acts[k].a == a ==> !acts[k].step.LeaveAddr?
  }

  lemma {:induction false} NothingLeft(rule: Rule, ws: seq<World>, acts: seq<Action>, i: nat, a: NodeId)
    requires IsRun(rule, ws, acts) && i < |ws| && LeaveFree(acts, i, a) && a in ws[i].nodes
    ensures ws[i].nodes[a].left == multiset{}
    decreases i
  {
    if i > 0 {
      var w, act := ws[i - 1], acts[i - 1];
      assert Enabled(w, rule, act);
      if a in w.nodes {
        NothingLeft(rule, ws, acts, i - 1, a);
      }
    }
  }

  /** In leave-free runs there is exactly one live session per handle, its own, and none without. */
  lemma OneSessionPerHandle(rule: Rule, ws: seq<World>, acts: seq<Action>, i: nat, a: NodeId, n: NodeId)
    requires Lawful(rule) && IsRun(rule, ws, acts) && i < |ws| && LeaveFree(acts, i, a) && a in ws[i].nodes
    ensures var node := ws[i].nodes[a];
      LiveTasks(node, n) == if n in node.shared.peers then {node.shared.peers[n].task} else {}
  {
    RunInv(rule, ws, acts, i);
    NothingLeft(rule, ws, acts, i, a);
    SessionExact(ws[i].nodes[a], n);
  }

  ghost predicate IsLeave(act: Action, a: NodeId, addr: string) {
    act.Local? && act.a == a && act.step.LeaveAddr? && act.step.addr == addr
  }

  /** The action registers a session of node `a` with node `n`. */
  predicate Admits(w: World, act: Action, a: NodeId, n: NodeId) {
    && Shapely(w, act) && HasStep(act) && Actor(w, act) == a
    && (StepOf(w, act).Accept? || StepOf(w, act).Adopt?) && StepOf(w, act).remote == n
  }

  /** The leaked session `t` of node `a` holds the handle of `n`, for address `addr`, and nobody will clean up. */
  predicate Blocked(w: World, a: NodeId, t: TaskId, n: NodeId, addr: string) {
    a in w.nodes && ShutOut(w.nodes[a], t) && w.nodes[a].tasks[t].remote == n && AddrOf(w.nodes[a], t) == addr
  }

  lemma BlockedAdmitsNone(w: World, rule: Rule, act: Action, a: NodeId, t: TaskId, n: NodeId, addr: string)
    requires Enabled(w, rule, act) && Blocked(w, a, t, n, addr)
    ensures !Admits(w, act, a, n)
  {
  }

  /** The state ends with that leave command, and with nothing else. */
  lemma ActionKeepsBlocked(w: World, rule: Rule, act: Action, a: NodeId, t: TaskId, n: NodeId, addr: string)
    requires Enabled(w, rule, act) && Blocked(w, a, t, n, addr)
    ensures Blocked(Apply(w, rule, act), a, t, n, addr) <==> !IsLeave(act, a, addr)
  {
    if HasStep(act) && Actor(w, act) == a {
      StepActionMovesOne(w, rule, act);
      LeakStays(w.nodes[a], rule, StepOf(w, act), t);
    } else {
      OtherUnmoved(w, rule, act);
    }
  }

  /**
   One failed write shuts a peer out: where a leaked session holds the handle of `n`, and every other session with
   `n` that has not been cleaned up is a leaked one too, it goes on holding it and no session with `n` is
   registered, until a leave command names its address.
   */
  lemma {:induction false} LeakShutsOut(rule: Rule, ws: seq<World>, acts: seq<Action>, i: nat, j: nat,
                                        a: NodeId, t: TaskId, n: NodeId, addr: string)
    requires IsRun(rule, ws, acts) && i <= j < |ws| && Blocked(ws[i], a, t, n, addr)
    requires forall k :: i <= k < j ==> !IsLeave(acts[k], a, addr)
    ensures Blocked(ws[j], a, t, n, addr)
    ensures forall act :: Enabled(ws[j], rule, act) ==> !Admits(ws[j], act, a, n)
    decreases j
  {
    if i < j {
      LeakShutsOut(rule, ws, acts, i, j - 1, a, t, n, addr);
      ActionKeepsBlocked(ws[j - 1], rule, acts[j - 1], a, t, n, addr);
    }
    forall act | Enabled(ws[j], rule, act) ensures !Admits(ws[j], act, a, n) {
      BlockedAdmitsNone(ws[j], rule, act, a, t, n, addr);
    }
  }

  /**
   No lost wake-up: in leave-free runs every live session in its loop has announced the node's last removal,
   or its token is pending, or it has taken the token and is about to read the document.
   */
  lemma RemovalIsAnnounced(rule: Rule, ws: seq<World>, acts: seq<Action>, i: nat, a: NodeId, t: TaskId)
    requires Lawful(rule) && IsRun(rule, ws, acts) && i < |ws| && LeaveFree(acts, i, a) && a in ws[i].nodes
    requires t in ws[i].nodes[a].tasks && InLoop(ws[i].nodes[a].tasks[t].phase)
    ensures var node := ws[i].nodes[a];
      || t in node.shared.tokens
      || node.removal <= At(node.tasks[t].sent, a)
      || (node.tasks[t].phase.Writing? && node.removal <= At(node.tasks[t].phase.senderVv, a))
  {
    var node := ws[i].nodes[a];
    RunInv(rule, ws, acts, i);
    NothingLeft(rule, ws, acts, i, a);
    NoLostWakeup(node, t);
    assert DocsOf(ws[i])[a].replica == a;
  }

  /** With leaves, the same holds for every session that still owns the handle of its peer. */
  lemma OwnersAreAwake(rule: Rule, ws: seq<World>, acts: seq<Action>, i: nat, a: NodeId, t: TaskId)
    requires Lawful(rule) && IsRun(rule, ws, acts) && i < |ws| && a in ws[i].nodes && Owns(ws[i].nodes[a], t)
    ensures Announced(ws[i].nodes[a], t)
  {
    RunInv(rule, ws, acts, i);
  }

  /**
   Exactly which sessions a removal reaches, in every run, with leaves and leaks: after a cleanup, a session in its
   loop has the removal announced or under way if and only if it had a token, or owns the handle of another peer
   than the removed one. A session that a leave command has left without its handle misses it.
   */
  lemma RemovalReaches(rule: Rule, ws: seq<World>, acts: seq<Action>, i: nat, a: NodeId, u: TaskId)
    requires Lawful(rule) && IsRun(rule, ws, acts) && i < |acts|
    requires acts[i].Local? && acts[i].a == a && acts[i].step.Finish?
    requires a in ws[i].nodes && acts[i].step.task in ws[i].nodes[a].tasks
    requires u in ws[i].nodes[a].tasks && ws[i].nodes[a].tasks[u].phase.Looping?
    ensures a in ws[i + 1].nodes && u in ws[i + 1].nodes[a].tasks
    ensures var node := ws[i].nodes[a];
      Announced(ws[i + 1].nodes[a], u) <==>
        u in node.shared.tokens
        || (Owns(node, u) && node.tasks[u].remote != node.tasks[acts[i].step.task].remote)
  {
    var w, node := ws[i], ws[i].nodes[a];
    assert Enabled(w, rule, acts[i]);
    assert Counted(node) && ValidDoc(node.shared.doc) && SentBehind(w, a, u) by {
      RunInv(rule, ws, acts, i);
      ActorValid(w, a);
      SentIsBehind(w, a, u);
    }
    StepActionMovesOne(w, rule, acts[i]);
    FinishAnnounces(node, rule, acts[i].step.task, acts[i].step.names, u);
  }

  ghost predicate SentBehind(w: World, a: NodeId, u: TaskId) {
    a in w.nodes && u in w.nodes[a].tasks
    && At(w.nodes[a].tasks[u].sent, w.nodes[a].shared.doc.replica) <= OwnCounter(w.nodes[a].shared)
  }

  lemma SentIsBehind(w: World, a: NodeId, u: TaskId)
    requires Wired(w) && a in w.nodes && u in w.nodes[a].tasks
    ensures SentBehind(w, a, u)
  {
    assert GoodNode(w, w.history, DocsOf(w), a, w.nodes[a]);
    assert GoodTask(w, w.history, DocsOf(w), a, u, w.nodes[a].tasks[u]);
    assert Leq(w.nodes[a].tasks[u].sent, DocsOf(w)[a].vv);
  }

  // -- Events ---------------------------------------------------------------------------------------

  ghost predicate IsStop(act: Action, a: NodeId) {
    act.Local? && act.a == a && act.step.Stop?
  }

  lemma {:induction false} ReplayApart(ids: set<NodeId>, events: seq<MembershipChange>, n: NodeId)
    ensures Replay(ids - {n}, events) - {n} == Replay(ids, events) - {n}
    decreases |events|
  {
    if events != [] {
      var c, rest := events[0], events[1..];
      ReplayApart(ApplyEvent(ids, c), rest, n);
      ReplayApart(ApplyEvent(ids - {n}, c), rest, n);
      assert ApplyEvent(ids - {n}, c) - {n} == ApplyEvent(ids, c) - {n};
    }
  }

  function IdsAt(w: World, rule: Rule, a: NodeId): set<NodeId>
    requires a in w.nodes
  {
    MemberIds(DocOf(w, a), rule).Keys
  }

  function EventsAt(w: World, a: NodeId): seq<MembershipChange>
    requires a in w.nodes
  {
    w.nodes[a].shared.events
  }

  lemma StopEvents(w: World, rule: Rule, act: Action, a: NodeId)
    requires Lawful(rule) && Replicated(w) && Enabled(w, rule, act) && IsStop(act, a)
    ensures var w' := Apply(w, rule, act);
      a in w'.nodes && EventsAt(w', a) == EventsAt(w, a) && IdsAt(w', rule, a) == IdsAt(w, rule, a) - {a}
  {
    ActorValid(w, a);
    assert DocsOf(w)[a].replica == a;
    RemoveNodeEffect(DocOf(w, a), rule, a, act.step.names);
  }

  lemma ActorEvents(w: World, rule: Rule, act: Action)
    requires Lawful(rule) && Replicated(w) && Enabled(w, rule, act) && HasStep(act) && !StepOf(w, act).Stop?
    ensures var a, w' := Actor(w, act), Apply(w, rule, act);
      && a in w'.nodes && EventsAt(w, a) <= EventsAt(w', a)
      && IdsAt(w', rule, a) == Replay(IdsAt(w, rule, a), EventsAt(w', a)[|EventsAt(w, a)|..])
  {
    var a := Actor(w, act);
    ActorValid(w, a);
    StepEvents(w.nodes[a], rule, StepOf(w, act));
  }

  /** One action, seen by the subscribers of node `a`. */
  lemma ActionEvents(w: World, rule: Rule, act: Action, a: NodeId)
    requires Lawful(rule) && Replicated(w) && Enabled(w, rule, act) && a in w.nodes
    ensures var w' := Apply(w, rule, act);
      && a in w'.nodes && EventsAt(w, a) <= EventsAt(w', a)
      && var news := EventsAt(w', a)[|EventsAt(w, a)|..];
      && (!IsStop(act, a) ==> IdsAt(w', rule, a) == Replay(IdsAt(w, rule, a), news))
      && (IsStop(act, a) ==> IdsAt(w', rule, a) == IdsAt(w, rule, a) - {a} && news == [])
  {
    if IsStop(act, a) {
      StopEvents(w, rule, act, a);
    } else if HasStep(act) && Actor(w, act) == a {
      ActorEvents(w, rule, act);
    } else {
      assert Apply(w, rule, act).nodes[a] == w.nodes[a];
    }
  }

  lemma ReplayMore(ids: set<NodeId>, e0: seq<MembershipChange>, e1: seq<MembershipChange>, e2: seq<MembershipChange>)
    requires e0 <= e1 <= e2
    ensures Replay(ids, e2[|e0|..]) == Replay(Replay(ids, e1[|e0|..]), e2[|e1|..])
  {
    assert e2[|e0|..] == e1[|e0|..] + e2[|e1|..];
    ReplayAppend(ids, e1[|e0|..], e2[|e1|..]);
  }

  /** One more step of a replay, with or without the shutdown of `a`. */
  lemma ReplayNext(ids: set<NodeId>, view: set<NodeId>, next: set<NodeId>, news: seq<MembershipChange>,
                   a: NodeId, stop: bool)
    requires ids - {a} == view - {a}
    requires !stop ==> next == Replay(ids, news)
    requires stop ==> next == ids - {a} && news == []
    ensures next - {a} == Replay(view, news) - {a}
    ensures ids == view && !stop ==> next == Replay(view, news)
  {
    ReplayApart(ids, news, a);
    ReplayApart(view, news, a);
  }

  /** A view that starts from `ids` at log `e0` follows one more action of the cluster. */
  lemma ViewFollows(w: World, rule: Rule, act: Action, a: NodeId, ids: set<NodeId>, e0: seq<MembershipChange>)
    requires Lawful(rule) && Replicated(w) && Enabled(w, rule, act) && a in w.nodes && e0 <= EventsAt(w, a)
    requires IdsAt(w, rule, a) - {a} == Replay(ids, EventsAt(w, a)[|e0|..]) - {a}
    ensures var w' := Apply(w, rule, act);
      && a in w'.nodes && e0 <= EventsAt(w', a)
      && var view, view' := Replay(ids, EventsAt(w, a)[|e0|..]), Replay(ids, EventsAt(w', a)[|e0|..]);
      && IdsAt(w', rule, a) - {a} == view' - {a}
      && (IdsAt(w, rule, a) == view && !IsStop(act, a) ==> IdsAt(w', rule, a) == view')
  {
    ActionEvents(w, rule, act, a);
    var w' := Apply(w, rule, act);
    var e1, e2 := EventsAt(w, a), EventsAt(w', a);
    ReplayMore(ids, e0, e1, e2);
    ReplayNext(IdsAt(w, rule, a), Replay(ids, e1[|e0|..]), IdsAt(w', rule, a), e2[|e1|..], a, IsStop(act, a));
  }

  /**
   Event replay: a subscriber that starts from the member ids of world `i` and applies every event since
   has the member ids of world `j`, except possibly for the node itself, and with no exception unless the
   node shut down in between.
   */
  lemma {:induction false} EventReplay(rule: Rule, ws: seq<World>, acts: seq<Action>, i: nat, j: nat, a: NodeId)
    requires Lawful(rule) && IsRun(rule, ws, acts) && i <= j < |ws| && a in ws[i].nodes
    ensures a in ws[j].nodes && EventsAt(ws[i], a) <= EventsAt(ws[j], a)
    ensures var view := Replay(IdsAt(ws[i], rule, a), EventsAt(ws[j], a)[|EventsAt(ws[i], a)|..]);
      && IdsAt(ws[j], rule, a) - {a} == view - {a}
      && ((forall k :: i <= k < j ==> !IsStop(acts[k], a)) ==> IdsAt(ws[j], rule, a) == view)
    decreases j - i
  {
    if i == j {
      assert EventsAt(ws[j], a)[|EventsAt(ws[i], a)|..] == [];
    } else {
      EventReplay(rule, ws, acts, i, j - 1, a);
      assert Replicated(ws[j - 1]) by {
        RunInv(rule, ws, acts, j - 1);
      }
      ViewFollows(ws[j - 1], rule, acts[j - 1], a, IdsAt(ws[i], rule, a), EventsAt(ws[i], a));
    }
  }
}
