/**
 What can become of a removed peer: a removal that came too early does not last, and a peer that was removed for
 good can be connected again all the same.
 */
module Reconnection {
  import opened Causality
  import opened Document
  import opened Membership
  import opened Replication
  import opened Daemon
  import opened Sessions
  import opened Cluster
  import opened ClusterInvariant
  import opened Guarantees
  import opened Tombstones
  import opened Convergence
  import opened SyncRound
  import opened Agreement
  import opened Encounters

  // -- Removed for good, and back -----------------------------------------------------------------

  /**
   A peer whose removal is final can connect again, in any reachable world where neither has a handle for the
   other, and stays unlisted all the same.
   */
  lemma RemovedPeerCanReconnect(rule: Rule, ws: seq<World>, acts: seq<Action>, i: nat, conn: nat, a: NodeId, n: NodeId)
    returns (ws': seq<World>, acts': seq<Action>)
    requires Lawful(rule) && IsRun(rule, ws, acts) && i < |acts|
    requires Removes(ws[i], acts[i], a, n) && Covers(DocOf(ws[i], a).vv, Dot(n, 1))
    requires conn !in ws[|acts|].ends && Apart(ws[|acts|], a, n)
    ensures IsRun(rule, ws', acts') && ws <= ws' && acts <= acts'
    ensures Met(ws[|acts|], ws'[|acts'|], conn, a, n) && a in ws'[|acts'|].nodes
    ensures n !in MemberIds(DocOf(ws'[|acts'|], a), rule) && n !in Members(DocOf(ws'[|acts'|], a), rule)
  {
    ws', acts' := Meet(rule, ws, acts, conn, a, n);
    assert ws'[i] == ws[i] && acts'[i] == acts[i];
    RemovedForGood(rule, ws', acts', i, |acts'|, a, n, a);
  }

  /** Two nodes have started, and nothing else has happened. */
  ghost predicate TwoStarted(w: World, a: NodeId, b: NodeId) {
    && w.nodes == map[a := StartNode(a, "", map[], 0), b := StartNode(b, "", map[], 0)]
    && w.ends == map[]
  }

  lemma StartTwo(rule: Rule, a: NodeId, b: NodeId) returns (ws: seq<World>, acts: seq<Action>)
    requires a != b
    ensures IsRun(rule, ws, acts) && TwoStarted(ws[|acts|], a, b)
  {
    var act1, act2 := Start(a, "", map[], 0), Start(b, "", map[], 0);
    ws, acts := [NOTHING], [];
    ws, acts := OneMore(rule, ws, acts, act1, Apply(NOTHING, rule, act1));
    ws, acts := OneMore(rule, ws, acts, act2, Apply(ws[|acts|], rule, act2));
  }

  /** Two nodes start, connect, exchange what they know, part, and connect again: removed for good, and back. */
  lemma RemovedPeerComesBack(rule: Rule, a: NodeId, n: NodeId)
    returns (ws: seq<World>, acts: seq<Action>, i: nat, t: TaskId)
    requires Lawful(rule) && a != n
    ensures IsRun(rule, ws, acts) && i < |acts|
    ensures Removes(ws[i], acts[i], a, n) && Covers(DocOf(ws[i], a).vv, Dot(n, 1))
    ensures var w := ws[|acts|];
      && Connected(w, t) && Owner(w, t) == a && Connected(w, Other(t)) && Owner(w, Other(t)) == n
      && n !in MemberIds(DocOf(w, a), rule)
  {
    var ws1, acts1 := StartTwo(rule, a, n);
    var ws2, acts2 := Meet(rule, ws1, acts1, 0, a, n);
    var ws3, acts3 := TickReachesPeer(rule, ws2, acts2, TaskId(0, false));
    assert KeepsTask(ws2[|acts2|], ws3[|acts3|], TaskId(0, true));
    assert KeepsTask(ws2[|acts2|], ws3[|acts3|], TaskId(0, false));
    BirthCovered(rule, ws2, acts2, n, DocOf(ws3[|acts3|], a).vv);
    var ws4, acts4, k := Part(rule, ws3, acts3, 0, a, n);
    i, t := k, TaskId(1, true);
    ws, acts := RemovedPeerCanReconnect(rule, ws4, acts4, i, 1, a, n);
    assert ws[i] == ws4[i] && acts[i] == acts4[i];
  }

  lemma BirthCovered(rule: Rule, ws: seq<World>, acts: seq<Action>, n: NodeId, vv: VersionVector)
    requires Lawful(rule) && IsRun(rule, ws, acts) && n in ws[|acts|].nodes && Leq(DocOf(ws[|acts|], n).vv, vv)
    ensures Covers(vv, Dot(n, 1))
  {
    RunInv(rule, ws, acts, |acts|);
    assert At(DocOf(ws[|acts|], n).vv, n) <= At(vv, n);
  }

  // -- Removed too early --------------------------------------------------------------------------

  /** Removing a node keeps `n` unseen, if the remover has not seen `n` or removes another node. */
  lemma UnseenAfterRemoval(doc: Doc, after: Doc, rule: Rule, id: NodeId, n: NodeId)
    requires Unseen(doc, n) && Removed(doc, after, rule, id) && (id == n ==> !Covers(doc.vv, Dot(n, 1)))
    ensures Unseen(after, n) && doc.writes <= after.writes
  {
    var names :| ServicesToRemove(doc, rule, id, names) && after == RemoveNode(doc, id, names);
    TombstonesGrow(TombstoneNode(doc, id), id, names);
    forall v | v in after.writes && v.path == NodePath(n) ensures !Covers(v.seen, Dot(n, 1)) {
      TombstonedWrites(TombstoneNode(doc, id), id, names, v);
    }
  }

  /** Exchanging what is there keeps `n` unseen. */
  lemma UnseenInGroup(rule: Rule, ws: seq<World>, acts: seq<Action>, ws': seq<World>, acts': seq<Action>,
                      group: set<NodeId>, a: NodeId, n: NodeId)
    requires Lawful(rule) && Continues(rule, ws, acts, ws', acts', group)
    requires group <= ws[|acts|].nodes.Keys && a in group
    requires forall c :: c in group ==> Unseen(DocOf(ws[|acts|], c), n)
    ensures a in ws'[|acts'|].nodes && Unseen(DocOf(ws'[|acts'|], a), n)
  {
    GroupStays(rule, ws', acts', |acts|, |acts'|, group);
    forall v | v in DocOf(ws'[|acts'|], a).writes && v.path == NodePath(n) ensures !Covers(v.seen, Dot(n, 1)) {
      var c := KnownAtStart(rule, ws', acts', |acts|, |acts'|, group, a, v.dot.replica);
      RunEvolves(rule, ws', acts', |acts|, |acts'|);
      RunInv(rule, ws', acts', |acts|);
      RunInv(rule, ws', acts', |acts'|);
      HeldBefore(ws'[|acts|], ws'[|acts'|], a, v, c);
    }
  }

  function BirthOf(n: NodeId): Write {
    NextWrite(NewDoc(n), NodePath(n), Set(AliveRecord("", map[], 0)))
  }

  lemma StartDoc(n: NodeId, m: NodeId)
    ensures DocOfStart(n).writes == {BirthOf(n)} && DocOfStart(n).vv == map[n := 1]
    ensures IsBirth(BirthOf(n), n) && Unseen(DocOfStart(n), m)
    ensures m != n ==> !Covers(DocOfStart(n).vv, Dot(m, 1))
  {
  }

  function DocOfStart(n: NodeId): Doc {
    StartNode(n, "", map[], 0).shared.doc
  }

  /** Two nodes start, connect, and part before either has merged what the other sent; then they connect again. */
  lemma PartTooEarly(rule: Rule, a: NodeId, n: NodeId) returns (ws: seq<World>, acts: seq<Action>, i: nat)
    requires Lawful(rule) && a != n
    ensures IsRun(rule, ws, acts) && i < |acts|
    ensures Removes(ws[i], acts[i], a, n) && DocOf(ws[i], a) == DocOfStart(a)
    ensures var w := ws[|acts|];
      && w.nodes.Keys == {a, n} && 1 in w.ends && w.ends[1] == Ends(a, n) && Connected(w, TaskId(1, false))
      && Removed(DocOfStart(a), DocOf(w, a), rule, n) && Removed(DocOfStart(n), DocOf(w, n), rule, a)
  {
    var ws1, acts1 := StartTwo(rule, a, n);
    StartedApart(ws1[|acts1|], a, n);
    var ws2, acts2 := Meet(rule, ws1, acts1, 0, a, n);
    ws, acts, i := PartAndMeet(rule, ws2, acts2, 0, 1, a, n);
  }

  lemma StartedApart(w: World, a: NodeId, b: NodeId)
    requires a != b && TwoStarted(w, a, b)
    ensures Apart(w, a, b) && w.nodes.Keys == {a, b}
    ensures DocOf(w, a) == DocOfStart(a) && DocOf(w, b) == DocOfStart(b)
  {
  }

  lemma PartAndMeet(rule: Rule, ws: seq<World>, acts: seq<Action>, conn: nat, conn': nat, a: NodeId, b: NodeId)
    returns (ws': seq<World>, acts': seq<Action>, i: nat)
    requires Lawful(rule) && IsRun(rule, ws, acts) && conn in ws[|acts|].ends && ws[|acts|].ends[conn] == Ends(a, b)
    requires a != b && InSession(ws[|acts|], TaskId(conn, true)) && InSession(ws[|acts|], TaskId(conn, false))
    requires conn' !in ws[|acts|].ends
    ensures IsRun(rule, ws', acts') && i < |acts'|
    ensures Removes(ws'[i], acts'[i], a, b) && DocOf(ws'[i], a) == DocOf(ws[|acts|], a)
    ensures var w, w' := ws[|acts|], ws'[|acts'|];
      && w'.nodes.Keys == w.nodes.Keys && conn' in w'.ends && w'.ends[conn'] == Ends(a, b)
      && Connected(w', TaskId(conn', true)) && Connected(w', TaskId(conn', false))
      && Removed(DocOf(w, a), DocOf(w', a), rule, b) && Removed(DocOf(w, b), DocOf(w', b), rule, a)
  {
    var ws1, acts1, k := Part(rule, ws, acts, conn, a, b);
    ws', acts' := Meet(rule, ws1, acts1, conn', a, b);
    i := k;
    assert ws'[i] == ws1[i] && acts'[i] == acts1[i];
  }

  /** Once the other's first write has come in, it is listed, under the rule that prefers that write. */
  lemma ListedAfterExchange(rule: Rule, ws: seq<World>, acts: seq<Action>, ws': seq<World>, acts': seq<Action>,
                            a: NodeId, n: NodeId)
    requires Lawful(rule) && rule == Preferring(BirthOf(n)) && a != n
    requires Continues(rule, ws, acts, ws', acts', {a, n}) && ws[|acts|].nodes.Keys == {a, n}
    requires Removed(DocOfStart(a), DocOf(ws[|acts|], a), rule, n)
    requires Removed(DocOfStart(n), DocOf(ws[|acts|], n), rule, a)
    requires a in ws'[|acts'|].nodes && Leq(DocOf(ws[|acts|], n).vv, DocOf(ws'[|acts'|], a).vv)
    ensures n in MemberIds(DocOf(ws'[|acts'|], a), rule)
  {
    var w, w' := ws[|acts|], ws'[|acts'|];
    StartDoc(a, n);
    StartDoc(n, n);
    UnseenAfterRemoval(DocOfStart(a), DocOf(w, a), rule, n, n);
    UnseenAfterRemoval(DocOfStart(n), DocOf(w, n), rule, a, n);
    UnseenInGroup(rule, ws, acts, ws', acts', {a, n}, a, n);
    BirthArrives(rule, ws, acts, ws', acts', a, n);
    UnseenIsListed(DocOf(w', a), BirthOf(n), n);
    MemberIdsExact(DocOf(w', a), rule, n);
  }

  lemma BirthArrives(rule: Rule, ws: seq<World>, acts: seq<Action>, ws': seq<World>, acts': seq<Action>,
                     a: NodeId, n: NodeId)
    requires Lawful(rule) && IsRun(rule, ws, acts) && IsRun(rule, ws', acts') && ws <= ws' && acts <= acts'
    requires n in ws[|acts|].nodes && BirthOf(n) in DocOf(ws[|acts|], n).writes
    requires a in ws'[|acts'|].nodes && Leq(DocOf(ws[|acts|], n).vv, DocOf(ws'[|acts'|], a).vv)
    ensures BirthOf(n) in DocOf(ws'[|acts'|], a).writes
  {
    assert ws'[|acts|] == ws[|acts|];
    BirthCovered(rule, ws, acts, n, DocOf(ws'[|acts'|], a).vv);
    RunInv(rule, ws', acts', |acts|);
    RunInv(rule, ws', acts', |acts'|);
    RunEvolves(rule, ws', acts', |acts|, |acts'|);
    WriteReaches(ws'[|acts|], ws'[|acts'|], n, BirthOf(n), a);
  }

  /**
   A removal by a node that had not seen the other one join need not last: a run, under a lawful rule, in which
   `a` removes `n` and lists it later on.
   */
  lemma EarlyRemovalUndone(a: NodeId, n: NodeId)
    returns (rule: Rule, ws: seq<World>, acts: seq<Action>, i: nat)
    requires a != n
    ensures Lawful(rule) && IsRun(rule, ws, acts) && i < |acts|
    ensures Removes(ws[i], acts[i], a, n) && !Covers(DocOf(ws[i], a).vv, Dot(n, 1))
    ensures a in ws[|acts|].nodes && n in MemberIds(DocOf(ws[|acts|], a), rule)
  {
    rule := Preferring(BirthOf(n));
    PreferringIsLawful(BirthOf(n));
    StartDoc(a, n);
    var ws1, acts1, k := PartTooEarly(rule, a, n);
    ws, acts := TickReachesPeer(rule, ws1, acts1, TaskId(1, false));
    i := k;
    assert ws[i] == ws1[i] && acts[i] == acts1[i];
    GoesContinues(rule, ws1, acts1, ws, acts, TaskId(1, false), {a, n});
    ListedAfterExchange(rule, ws1, acts1, ws, acts, a, n);
  }
}
