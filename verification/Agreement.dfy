/** Agreement is always within reach: a group linked by live sessions can be led to equal documents. */
module Agreement {
  import opened Causality
  import opened Document
  import opened Membership
  import opened Daemon
  import opened Sessions
  import opened Cluster
  import opened ClusterInvariant
  import opened Delivery
  import opened Convergence
  import opened SyncRound

  /** Node `a` has the handle of a live session with `b`. */
  ghost predicate Linked(w: World, a: NodeId, b: NodeId) {
    exists t :: Connected(w, t) && Owner(w, t) == a && Owner(w, Other(t)) == b
  }

  /** A way through the group along live sessions. */
  ghost predicate Route(w: World, group: set<NodeId>, p: seq<NodeId>) {
    && p != [] && (forall i :: 0 <= i < |p| ==> p[i] in group)
    && forall i :: 0 <= i < |p| - 1 ==> Linked(w, p[i], p[i + 1])
  }

  /** There is a way from every member of the group to every other. */
  ghost predicate LinkedUp(w: World, group: set<NodeId>) {
    && group <= w.nodes.Keys
    && forall a, b :: a in group && b in group ==> exists p :: Route(w, group, p) && p[0] == a && p[|p| - 1] == b
  }

  /** The longer run goes on without a write in the group, without syncs from outside, and keeps its links. */
  ghost predicate Continues(rule: Rule, ws: seq<World>, acts: seq<Action>, ws': seq<World>, acts': seq<Action>,
                            group: set<NodeId>)
  {
    && IsRun(rule, ws, acts) && IsRun(rule, ws', acts') && ws <= ws' && acts <= acts'
    && (forall k :: |acts| <= k < |acts'| ==> Confined(ws'[k], acts'[k], group))
    && Keeps(ws[|acts|], ws'[|acts'|])
  }

  lemma ContinuesReflexive(rule: Rule, ws: seq<World>, acts: seq<Action>, group: set<NodeId>)
    requires IsRun(rule, ws, acts)
    ensures Continues(rule, ws, acts, ws, acts, group)
  {
  }

  lemma ContinuesTransitive(rule: Rule, ws: seq<World>, acts: seq<Action>, ws1: seq<World>, acts1: seq<Action>,
                            ws2: seq<World>, acts2: seq<Action>, group: set<NodeId>)
    requires Continues(rule, ws, acts, ws1, acts1, group) && Continues(rule, ws1, acts1, ws2, acts2, group)
    ensures Continues(rule, ws, acts, ws2, acts2, group)
  {
    forall k | |acts| <= k < |acts2| ensures Confined(ws2[k], acts2[k], group) {
      assert k < |acts1| ==> acts2[k] == acts1[k] && ws2[k] == ws1[k];
    }
    KeepsTransitive(ws[|acts|], ws1[|acts1|], ws2[|acts2|]);
  }

  lemma ExchangeIsConfined(w: World, rule: Rule, act: Action, t: TaskId, group: set<NodeId>)
    requires Enabled(w, rule, act) && Exchange(w, act, t.conn) && t.conn in w.ends
    requires Owner(w, t) in group && Owner(w, Other(t)) in group
    ensures Confined(w, act, group)
  {
    assert act.Deliver? ==> act.t == t || act.t == Other(t);
  }

  lemma GoesContinues(rule: Rule, ws: seq<World>, acts: seq<Action>, ws': seq<World>, acts': seq<Action>,
                      t: TaskId, group: set<NodeId>)
    requires Goes(rule, ws, acts, ws', acts', t.conn) && t.conn in ws[|acts|].ends
    requires Owner(ws[|acts|], t) in group && Owner(ws[|acts|], Other(t)) in group
    ensures Continues(rule, ws, acts, ws', acts', group)
  {
    forall k | |acts| <= k < |acts'| ensures Confined(ws'[k], acts'[k], group) {
      assert Enabled(ws'[k], rule, acts'[k]);
      ExchangeIsConfined(ws'[k], rule, acts'[k], t, group);
    }
  }

  lemma LinksStay(w: World, w': World, a: NodeId, b: NodeId)
    requires Keeps(w, w') && Linked(w, a, b)
    ensures Linked(w', a, b)
  {
    var t :| Connected(w, t) && Owner(w, t) == a && Owner(w, Other(t)) == b;
    assert KeepsTask(w, w', t) && KeepsTask(w, w', Other(t));
    assert Connected(w', t);
  }

  lemma RouteStays(w: World, w': World, group: set<NodeId>, p: seq<NodeId>)
    requires Keeps(w, w') && Route(w, group, p)
    ensures Route(w', group, p)
  {
    forall i | 0 <= i < |p| - 1 ensures Linked(w', p[i], p[i + 1]) {
      LinksStay(w, w', p[i], p[i + 1]);
    }
  }

  // -- Paths of syncs in longer runs ----------------------------------------------------------------

  lemma {:induction false} PathInLongerRun(ws: seq<World>, acts: seq<Action>, ws': seq<World>, acts': seq<Action>,
                                           a: NodeId, i: nat, b: NodeId, j: nat, j': nat, hops: seq<Hop>)
    requires IsPath(ws, acts, a, i, b, j, hops) && ws <= ws' && acts <= acts' && |acts'| < |ws'| && j <= j'
    ensures IsPath(ws', acts', a, i, b, j', hops)
    decreases |hops|
  {
    if hops != [] {
      HopInLongerRun(ws, acts, ws', acts', hops[0]);
      PathInLongerRun(ws, acts, ws', acts', hops[0].receiver, hops[0].merged + 1, b, j, j', hops[1..]);
    }
  }

  lemma PathFromEarlier(ws: seq<World>, acts: seq<Action>, a: NodeId, i: nat, i1: nat, b: NodeId, j: nat,
                        hops: seq<Hop>)
    requires IsPath(ws, acts, a, i1, b, j, hops) && i <= i1
    ensures IsPath(ws, acts, a, i, b, j, hops)
  {
  }

  lemma HopFirst(ws: seq<World>, acts: seq<Action>, h: Hop, i: nat, b: NodeId, j: nat, hops: seq<Hop>)
    requires IsHop(ws, acts, h) && i <= h.read && IsPath(ws, acts, h.receiver, h.merged + 1, b, j, hops)
    ensures IsPath(ws, acts, h.sender, i, b, j, [h] + hops)
  {
    assert ([h] + hops)[1..] == hops;
  }

  lemma FirstHop(rule: Rule, ws: seq<World>, acts: seq<Action>, group: set<NodeId>, p: seq<NodeId>)
    returns (ws': seq<World>, acts': seq<Action>, h: Hop)
    requires IsRun(rule, ws, acts) && Route(ws[|acts|], group, p) && |p| >= 2
    ensures Continues(rule, ws, acts, ws', acts', group) && Route(ws'[|acts'|], group, p[1..])
    ensures IsHop(ws', acts', h) && h.sender == p[0] && h.receiver == p[1]
    ensures |acts| <= h.read && h.merged + 1 == |acts'|
  {
    assert Linked(ws[|acts|], p[0], p[1]);
    var t :| Connected(ws[|acts|], t) && Owner(ws[|acts|], t) == p[0] && Owner(ws[|acts|], Other(t)) == p[1];
    ws', acts', h := Transfer(rule, ws, acts, t);
    GoesContinues(rule, ws, acts, ws', acts', t, group);
    RouteStays(ws[|acts|], ws'[|acts'|], group, p);
    RouteTail(ws'[|acts'|], group, p);
  }

  lemma HopInLongerRun(ws: seq<World>, acts: seq<Action>, ws': seq<World>, acts': seq<Action>, h: Hop)
    requires IsHop(ws, acts, h) && ws <= ws' && acts <= acts' && |acts'| < |ws'|
    ensures IsHop(ws', acts', h)
  {
    StaleInLongerRun(ws, acts, ws', acts', acts[h.merged].t, h.read, h.merged);
  }

  /** Along any route a run can go on so that syncs carry everything from its first node to its last. */
  lemma {:induction false} Follow(rule: Rule, ws: seq<World>, acts: seq<Action>, group: set<NodeId>, p: seq<NodeId>)
    returns (ws': seq<World>, acts': seq<Action>, hops: seq<Hop>)
    requires IsRun(rule, ws, acts) && Route(ws[|acts|], group, p)
    ensures Continues(rule, ws, acts, ws', acts', group)
    ensures IsPath(ws', acts', p[0], |acts|, p[|p| - 1], |acts'|, hops)
    decreases |p|
  {
    if |p| == 1 {
      ws', acts', hops := ws, acts, [];
    } else {
      var ws1, acts1, h := FirstHop(rule, ws, acts, group, p);
      ws', acts', hops := Follow(rule, ws1, acts1, group, p[1..]);
      ContinuesTransitive(rule, ws, acts, ws1, acts1, ws', acts', group);
      HopInLongerRun(ws1, acts1, ws', acts', h);
      HopFirst(ws', acts', h, |acts|, p[|p| - 1], |acts'|, hops);
      hops := [h] + hops;
    }
  }

  lemma RouteTail(w: World, group: set<NodeId>, p: seq<NodeId>)
    requires Route(w, group, p) && |p| >= 2
    ensures Route(w, group, p[1..])
  {
    forall i | 0 <= i < |p[1..]| - 1 ensures Linked(w, p[1..][i], p[1..][i + 1]) {
      assert Linked(w, p[i + 1], p[i + 2]);
    }
  }

  // -- Everybody to everybody -----------------------------------------------------------------------

  ghost predicate Joined(ws: seq<World>, acts: seq<Action>, i: nat, pair: (NodeId, NodeId)) {
    exists hops :: IsPath(ws, acts, pair.0, i, pair.1, |acts|, hops)
  }

  ghost predicate JoinedAll(ws: seq<World>, acts: seq<Action>, i: nat, pairs: seq<(NodeId, NodeId)>) {
    forall k :: 0 <= k < |pairs| ==> Joined(ws, acts, i, pairs[k])
  }

  predicate Within(pairs: seq<(NodeId, NodeId)>, group: set<NodeId>) {
    forall k :: 0 <= k < |pairs| ==> pairs[k].0 in group && pairs[k].1 in group
  }

  lemma WithinTail(pairs: seq<(NodeId, NodeId)>, group: set<NodeId>)
    requires Within(pairs, group) && pairs != []
    ensures Within(pairs[1..], group)
  {
  }

  lemma LinkedUpStays(w: World, w': World, group: set<NodeId>)
    requires Keeps(w, w') && LinkedUp(w, group)
    ensures LinkedUp(w', group)
  {
    forall a, b | a in group && b in group
      ensures exists p :: Route(w', group, p) && p[0] == a && p[|p| - 1] == b
    {
      var p :| Route(w, group, p) && p[0] == a && p[|p| - 1] == b;
      RouteStays(w, w', group, p);
    }
  }

  lemma JoinPair(rule: Rule, ws: seq<World>, acts: seq<Action>, group: set<NodeId>, pair: (NodeId, NodeId))
    returns (ws': seq<World>, acts': seq<Action>)
    requires IsRun(rule, ws, acts) && LinkedUp(ws[|acts|], group) && pair.0 in group && pair.1 in group
    ensures Continues(rule, ws, acts, ws', acts', group) && LinkedUp(ws'[|acts'|], group)
    ensures Joined(ws', acts', |acts|, pair)
  {
    var p :| Route(ws[|acts|], group, p) && p[0] == pair.0 && p[|p| - 1] == pair.1;
    var hops;
    ws', acts', hops := Follow(rule, ws, acts, group, p);
    LinkedUpStays(ws[|acts|], ws'[|acts'|], group);
  }

  lemma JoinedInLongerRun(ws: seq<World>, acts: seq<Action>, ws': seq<World>, acts': seq<Action>, i: nat,
                          pair: (NodeId, NodeId))
    requires Joined(ws, acts, i, pair) && ws <= ws' && acts <= acts' && |acts'| < |ws'|
    ensures Joined(ws', acts', i, pair)
  {
    var hops :| IsPath(ws, acts, pair.0, i, pair.1, |acts|, hops);
    PathInLongerRun(ws, acts, ws', acts', pair.0, i, pair.1, |acts|, |acts'|, hops);
  }

  lemma JoinedFromEarlier(ws: seq<World>, acts: seq<Action>, i: nat, i1: nat, pair: (NodeId, NodeId))
    requires Joined(ws, acts, i1, pair) && i <= i1
    ensures Joined(ws, acts, i, pair)
  {
    var hops :| IsPath(ws, acts, pair.0, i1, pair.1, |acts|, hops);
    PathFromEarlier(ws, acts, pair.0, i, i1, pair.1, |acts|, hops);
  }

  lemma AllJoined(ws: seq<World>, acts: seq<Action>, i: nat, i1: nat, pairs: seq<(NodeId, NodeId)>)
    requires pairs != [] && i <= i1 && Joined(ws, acts, i, pairs[0])
    requires JoinedAll(ws, acts, i1, pairs[1..])
    ensures JoinedAll(ws, acts, i, pairs)
  {
    forall k | 1 <= k < |pairs| ensures Joined(ws, acts, i, pairs[k]) {
      assert pairs[k] == pairs[1..][k - 1];
      JoinedFromEarlier(ws, acts, i, i1, pairs[k]);
    }
  }

  lemma OneMorePair(rule: Rule, ws: seq<World>, acts: seq<Action>, ws1: seq<World>, acts1: seq<Action>,
                    ws2: seq<World>, acts2: seq<Action>, group: set<NodeId>, pairs: seq<(NodeId, NodeId)>)
    requires Continues(rule, ws, acts, ws1, acts1, group) && Continues(rule, ws1, acts1, ws2, acts2, group)
    requires pairs != [] && Joined(ws1, acts1, |acts|, pairs[0]) && JoinedAll(ws2, acts2, |acts1|, pairs[1..])
    ensures Continues(rule, ws, acts, ws2, acts2, group) && JoinedAll(ws2, acts2, |acts|, pairs)
  {
    ContinuesTransitive(rule, ws, acts, ws1, acts1, ws2, acts2, group);
    JoinedInLongerRun(ws1, acts1, ws2, acts2, |acts|, pairs[0]);
    AllJoined(ws2, acts2, |acts|, |acts1|, pairs);
  }

  lemma {:induction false} JoinPairs(rule: Rule, ws: seq<World>, acts: seq<Action>, group: set<NodeId>,
                                     pairs: seq<(NodeId, NodeId)>)
    returns (ws': seq<World>, acts': seq<Action>)
    requires IsRun(rule, ws, acts) && LinkedUp(ws[|acts|], group)
    requires Within(pairs, group)
    ensures Continues(rule, ws, acts, ws', acts', group)
    ensures JoinedAll(ws', acts', |acts|, pairs)
    decreases |pairs|
  {
    if pairs == [] {
      ContinuesReflexive(rule, ws, acts, group);
      ws', acts' := ws, acts;
    } else {
      WithinTail(pairs, group);
      var ws1, acts1 := JoinPair(rule, ws, acts, group, pairs[0]);
      ws', acts' := JoinPairs(rule, ws1, acts1, group, pairs[1..]);
      OneMorePair(rule, ws, acts, ws1, acts1, ws', acts', group, pairs);
    }
  }

  lemma AllConnected(ws: seq<World>, acts: seq<Action>, i: nat, group: set<NodeId>, pairs: seq<(NodeId, NodeId)>)
    requires forall a, b :: a in group && b in group ==> (a, b) in pairs
    requires JoinedAll(ws, acts, i, pairs)
    ensures Connects(ws, acts, i, |acts|, group)
  {
    forall a, b | a in group && b in group ensures exists hops :: IsPath(ws, acts, a, i, b, |acts|, hops) {
      assert (a, b) in pairs;
      assert Joined(ws, acts, i, (a, b));
    }
  }

  lemma AllPairs(group: set<NodeId>) returns (pairs: seq<(NodeId, NodeId)>)
    ensures Within(pairs, group)
    ensures forall a, b :: a in group && b in group ==> (a, b) in pairs
  {
    pairs := Enumerate(set a, b | a in group && b in group :: (a, b));
    forall i | 0 <= i < |pairs| ensures pairs[i].0 in group && pairs[i].1 in group {
      assert pairs[i] in pairs;
    }
  }

  lemma Connect(rule: Rule, ws: seq<World>, acts: seq<Action>, group: set<NodeId>)
    returns (ws': seq<World>, acts': seq<Action>)
    requires Lawful(rule) && IsRun(rule, ws, acts) && LinkedUp(ws[|acts|], group)
    ensures Continues(rule, ws, acts, ws', acts', group)
    ensures LeftAlone(rule, ws', acts', |acts|, |acts'|, group)
  {
    var pairs := AllPairs(group);
    ws', acts' := JoinPairs(rule, ws, acts, group, pairs);
    AllConnected(ws', acts', |acts|, group, pairs);
    IsLeftAlone(rule, ws, acts, ws', acts', group);
  }

  lemma IsLeftAlone(rule: Rule, ws: seq<World>, acts: seq<Action>, ws': seq<World>, acts': seq<Action>,
                    group: set<NodeId>)
    requires Lawful(rule) && Continues(rule, ws, acts, ws', acts', group) && group <= ws[|acts|].nodes.Keys
    requires Connects(ws', acts', |acts|, |acts'|, group)
    ensures LeftAlone(rule, ws', acts', |acts|, |acts'|, group)
  {
    assert ws'[|acts|] == ws[|acts|];
  }

  ghost predicate SameView(rule: Rule, w: World, a: NodeId, b: NodeId) {
    && a in w.nodes && b in w.nodes
    && DocOf(w, a).vv == DocOf(w, b).vv && DocOf(w, a).writes == DocOf(w, b).writes
    && MemberIds(DocOf(w, a), rule) == MemberIds(DocOf(w, b), rule)
    && Members(DocOf(w, a), rule) == Members(DocOf(w, b), rule)
    && forall name :: Lookup(DocOf(w, a), rule, name) == Lookup(DocOf(w, b), rule, name)
  }

  lemma Agree(rule: Rule, ws: seq<World>, acts: seq<Action>, i: nat, group: set<NodeId>, a: NodeId, b: NodeId)
    requires i <= |acts| < |ws| && LeftAlone(rule, ws, acts, i, |acts|, group) && a in group && b in group
    ensures SameView(rule, ws[|acts|], a, b)
  {
    Converges(rule, ws, acts, i, |acts|, group, a, b);
  }

  /**
   From any reachable world, a group that is linked up by live sessions can be led, by its own steps and with
   no further write, to a world where all its members have the same vector, writes, members and lookups. The
   rest of the cluster may have stopped, crashed or be out of reach.
   */
  lemma GroupCanAgree(rule: Rule, ws: seq<World>, acts: seq<Action>, group: set<NodeId>)
    returns (ws': seq<World>, acts': seq<Action>)
    requires Lawful(rule) && IsRun(rule, ws, acts) && LinkedUp(ws[|acts|], group)
    ensures Continues(rule, ws, acts, ws', acts', group) && group <= ws'[|acts'|].nodes.Keys
    ensures forall a, b :: a in group && b in group ==> SameView(rule, ws'[|acts'|], a, b)
  {
    ws', acts' := Connect(rule, ws, acts, group);
    forall a, b | a in group && b in group ensures SameView(rule, ws'[|acts'|], a, b) {
      Agree(rule, ws', acts', |acts|, group, a, b);
    }
  }
}
