/** First in, first out: how old the document can be that a delivered sync was read from. */
module Delivery {
  import opened Causality
  import opened Document
  import opened Replication
  import opened Daemon
  import opened Sessions
  import opened Cluster
  import opened ClusterInvariant

  /** The action takes a message off the wire to `t`. */
  predicate Pops(act: Action, t: TaskId) {
    (act.Refuse? || act.Answer? || act.Conclude? || act.Deliver?) && act.t == t
  }

  predicate IsWriting(w: World, t: TaskId) {
    t.conn in w.ends && Owner(w, t) in w.nodes && t in w.nodes[Owner(w, t)].tasks
    && w.nodes[Owner(w, t)].tasks[t].phase.Writing?
  }

  /** The messages for `t` that are on the wire or about to be written to it. */
  function Pending(w: World, t: TaskId): nat {
    (if t in w.wires then |w.wires[t]| else 0) + if IsWriting(w, Other(t)) then 1 else 0
  }

  function Min(a: nat, b: nat): nat {
    if a <= b then a else b
  }

  function AfterPop(n: nat, act: Action, t: TaskId): nat {
    if n > 0 && Pops(act, t) then n - 1 else n
  }

  /** How many of the messages pending for `t` in world `k` were pending already in world `i`, at most. */
  function Stale(ws: seq<World>, acts: seq<Action>, t: TaskId, i: nat, k: nat): nat
    requires i <= k <= |acts| < |ws|
    decreases k
  {
    if k == i then Pending(ws[i], t)
    else Min(AfterPop(Stale(ws, acts, t, i, k - 1), acts[k - 1], t), Pending(ws[k], t))
  }

  /** Beyond its first `q` messages, everything that `s` has pending for `t` covers `v`. */
  ghost predicate FreshBeyond(w: World, t: TaskId, s: NodeId, v: VersionVector, q: nat) {
    t.conn in w.ends && t in w.wires && Far(w, t) == s ==>
      && (forall x :: q <= x < |w.wires[t]| && w.wires[t][x].MembershipSync? ==> Leq(v, w.wires[t][x].senderVv))
      && (IsWriting(w, Other(t)) ==> |w.wires[t]| < q || Leq(v, w.nodes[s].tasks[Other(t)].phase.senderVv))
  }

  lemma WritingStep(node: Node, rule: Rule, step: Step, u: TaskId)
    requires Can(node, rule, step) && u in Do(node, rule, step).tasks && Do(node, rule, step).tasks[u].phase.Writing?
    ensures (u in node.tasks && node.tasks[u].phase == Do(node, rule, step).tasks[u].phase && step != WriteSync(u))
            || Do(node, rule, step).tasks[u].phase.senderVv == node.shared.doc.vv
  {
  }

  /** A task that is about to write was so before, or has just read its node's document. */
  lemma WritingIsFresh(w: World, rule: Rule, act: Action, u: TaskId)
    requires Wired(w) && Enabled(w, rule, act) && u.conn in w.ends && IsWriting(Apply(w, rule, act), u)
    requires Owner(w, u) in w.nodes
    ensures WasOrReads(w, Apply(w, rule, act), act, u)
  {
    OtherUnmoved(w, rule, act);
    if HasStep(act) && Actor(w, act) == Owner(w, u) {
      StepActionMovesOne(w, rule, act);
      WriterStep(w, Apply(w, rule, act), rule, act, u);
    }
  }

  ghost predicate WasOrReads(w: World, w': World, act: Action, u: TaskId)
    requires u.conn in w.ends && Owner(w, u) in w.nodes && IsWriting(w', u)
  {
    var s := Owner(w, u);
    && Owner(w', u) == s
    && ((IsWriting(w, u) && w'.nodes[s].tasks[u].phase == w.nodes[s].tasks[u].phase && act != SendSync(u))
        || w'.nodes[s].tasks[u].phase.senderVv == DocOf(w, s).vv)
  }

  lemma WriterStep(w: World, w': World, rule: Rule, act: Action, u: TaskId)
    requires Enabled(w, rule, act) && HasStep(act) && u.conn in w.ends && Actor(w, act) == Owner(w, u)
    requires w'.nodes == w.nodes[Owner(w, u) := Do(w.nodes[Owner(w, u)], rule, StepOf(w, act))] && w'.ends == w.ends
    requires IsWriting(w', u)
    ensures WasOrReads(w, w', act, u)
  {
    WritingStep(w.nodes[Owner(w, u)], rule, StepOf(w, act), u);
  }

  lemma WiresOfApply(w: World, rule: Rule, act: Action)
    requires Enabled(w, rule, act)
    ensures Apply(w, rule, act).wires == WiresAfter(w, act)
  {
  }

  /** How an action may change the wire of `t`: take its head, add a sync or an acknowledgement, or cut its tail. */
  ghost predicate WireMoves(w: World, act: Action, t: TaskId, after: seq<Message>)
    requires t in w.wires && t.conn in w.ends
  {
    var wire := w.wires[t];
    if Pops(act, t) then wire != [] && after == wire[1..]
    else if act == SendSync(Other(t)) then
      && IsWriting(w, Other(t))
      && var phase := w.nodes[Far(w, t)].tasks[Other(t)].phase;
      after == wire + [MembershipSync(phase.delta, phase.senderVv)]
    else if act.SendAck? && act.t == Other(t) then exists m :: after == wire + [m] && m.HandshakeAck?
    else after <= wire
  }

  lemma WireStep(w: World, act: Action, t: TaskId)
    requires Shapely(w, act) && t.conn in w.ends && t in w.wires
    ensures t in WiresAfter(w, act) && WireMoves(w, act, t, WiresAfter(w, act)[t])
  {
    if act.SendAck? && act.t == Other(t) {
      var phase := w.nodes[Owner(w, act.t)].tasks[act.t].phase;
      assert WiresAfter(w, act)[t] == w.wires[t] + [HandshakeAck(Owner(w, act.t), act.addr, phase.vv)];
    }
  }

  /** One action keeps the count: what is pending and fresh stays so, and what is added is fresh. */
  lemma FreshOnWire(w: World, act: Action, t: TaskId, s: NodeId, v: VersionVector, q: nat, after: seq<Message>)
    requires Shapely(w, act) && t.conn in w.ends && t in w.wires && Far(w, t) == s && FreshBeyond(w, t, s, v, q)
    requires WireMoves(w, act, t, after)
    ensures forall x :: AfterPop(q, act, t) <= x < |after| && after[x].MembershipSync? ==> Leq(v, after[x].senderVv)
    ensures IsWriting(w, Other(t)) && act != SendSync(Other(t)) ==>
      |after| < AfterPop(q, act, t) || Leq(v, w.nodes[s].tasks[Other(t)].phase.senderVv)
  {
  }

  /** A wire that has just come into being carries no sync. */
  lemma FreshDial(w: World, rule: Rule, act: Action, t: TaskId, s: NodeId, v: VersionVector, q: nat)
    requires Wired(w) && Enabled(w, rule, act) && t.conn !in w.ends
    ensures FreshBeyond(Apply(w, rule, act), t, s, v, q)
  {
    var w' := Apply(w, rule, act);
    if act.Dial? && t.conn == act.conn {
      assert w'.wires[t] == if t.initiator then [] else [Handshake(act.initiator, act.addr)];
      forall a | a in w.nodes ensures Other(t) !in w.nodes[a].tasks {
        assert GoodNode(w, w.history, DocsOf(w), a, w.nodes[a]);
      }
    }
  }

  lemma FreshStepHere(w: World, w': World, act: Action, t: TaskId, s: NodeId, v: VersionVector, q: nat)
    requires Wired(w) && Shapely(w, act) && s in w.nodes && Leq(v, DocOf(w, s).vv)
    requires t.conn in w.ends && Far(w, t) == s && FreshBeyond(w, t, s, v, q)
    requires w'.wires == WiresAfter(w, act) && t.conn in w'.ends && w'.ends[t.conn] == w.ends[t.conn]
    requires IsWriting(w', Other(t)) ==> WasOrReads(w, w', act, Other(t))
    ensures FreshBeyond(w', t, s, v, AfterPop(q, act, t))
  {
    WireStep(w, act, t);
    FreshOnWire(w, act, t, s, v, q, w'.wires[t]);
  }

  lemma FreshStep(w: World, rule: Rule, act: Action, t: TaskId, s: NodeId, v: VersionVector, q: nat)
    requires Wired(w) && Enabled(w, rule, act) && s in w.nodes && Leq(v, DocOf(w, s).vv)
    requires FreshBeyond(w, t, s, v, q)
    ensures FreshBeyond(Apply(w, rule, act), t, s, v, AfterPop(q, act, t))
  {
    var w' := Apply(w, rule, act);
    if t.conn !in w.ends {
      FreshDial(w, rule, act, t, s, v, AfterPop(q, act, t));
    } else if Far(w, t) == s {
      WiresOfApply(w, rule, act);
      OtherUnmoved(w, rule, act);
      if IsWriting(w', Other(t)) {
        WritingIsFresh(w, rule, act, Other(t));
      }
      FreshStepHere(w, w', act, t, s, v, q);
    } else {
      OtherUnmoved(w, rule, act);
    }
  }

  lemma FreshAtStart(w: World, t: TaskId, s: NodeId)
    requires s in w.nodes
    ensures FreshBeyond(w, t, s, DocOf(w, s).vv, Pending(w, t))
  {
  }

  lemma FreshBeyondPending(w: World, t: TaskId, s: NodeId, v: VersionVector, q: nat)
    requires FreshBeyond(w, t, s, v, q)
    ensures FreshBeyond(w, t, s, v, Min(q, Pending(w, t)))
  {
  }

  lemma FreshNext(w: World, rule: Rule, act: Action, t: TaskId, s: NodeId, v: VersionVector, q: nat)
    requires Wired(w) && Enabled(w, rule, act) && s in w.nodes && Leq(v, DocOf(w, s).vv)
    requires FreshBeyond(w, t, s, v, q)
    ensures var w' := Apply(w, rule, act); FreshBeyond(w', t, s, v, Min(AfterPop(q, act, t), Pending(w', t)))
  {
    FreshStep(w, rule, act, t, s, v, q);
    FreshBeyondPending(Apply(w, rule, act), t, s, v, AfterPop(q, act, t));
  }

  lemma FreshInRun(rule: Rule, ws: seq<World>, acts: seq<Action>, k: nat, t: TaskId, s: NodeId,
                   v: VersionVector, q: nat)
    requires Lawful(rule) && IsRun(rule, ws, acts) && k < |acts|
    requires s in ws[k].nodes && Leq(v, DocOf(ws[k], s).vv) && FreshBeyond(ws[k], t, s, v, q)
    ensures FreshBeyond(ws[k + 1], t, s, v, Min(AfterPop(q, acts[k], t), Pending(ws[k + 1], t)))
  {
    assert Enabled(ws[k], rule, acts[k]);
    assert Wired(ws[k]) by {
      RunInv(rule, ws, acts, k);
    }
    FreshNext(ws[k], rule, acts[k], t, s, v, q);
  }

  /** Beyond what is left of the messages pending in world `i`, everything pending was read no earlier. */
  lemma {:induction false} FreshAlong(rule: Rule, ws: seq<World>, acts: seq<Action>, t: TaskId, s: NodeId,
                                      i: nat, k: nat)
    requires Lawful(rule) && IsRun(rule, ws, acts) && i <= k <= |acts| && s in ws[i].nodes
    ensures FreshBeyond(ws[k], t, s, DocOf(ws[i], s).vv, Stale(ws, acts, t, i, k))
    decreases k
  {
    if i < k {
      var v, q := DocOf(ws[i], s).vv, Stale(ws, acts, t, i, k - 1);
      FreshAlong(rule, ws, acts, t, s, i, k - 1);
      VectorsGrow(rule, ws, acts, i, k - 1, s);
      FreshInRun(rule, ws, acts, k - 1, t, s, v, q);
    } else {
      FreshAtStart(ws[i], t, s);
    }
  }

  /**
   A sync that is delivered when nothing is left of what was pending in world `i` covers everything that its
   sender had in world `i`.
   */
  lemma DeliveryCovers(rule: Rule, ws: seq<World>, acts: seq<Action>, i: nat, m: nat)
    requires Lawful(rule) && IsRun(rule, ws, acts) && i <= m < |acts| && acts[m].Deliver?
    requires Waiting(ws[m], acts[m].t) && Far(ws[m], acts[m].t) in ws[i].nodes
    requires Stale(ws, acts, acts[m].t, i, m) == 0
    ensures ws[m].wires[acts[m].t][0].MembershipSync?
    ensures Leq(DocOf(ws[i], Far(ws[m], acts[m].t)).vv, ws[m].wires[acts[m].t][0].senderVv)
  {
    assert Enabled(ws[m], rule, acts[m]);
    FreshAlong(rule, ws, acts, acts[m].t, Far(ws[m], acts[m].t), i, m);
  }

  /** The count only falls, and a longer run does not change it. */
  lemma {:induction false} StaleShrinks(ws: seq<World>, acts: seq<Action>, t: TaskId, i: nat, k: nat)
    requires i <= k <= |acts| < |ws|
    ensures Stale(ws, acts, t, i, k) <= Pending(ws[i], t)
    decreases k
  {
    if i < k {
      StaleShrinks(ws, acts, t, i, k - 1);
    }
  }

  lemma {:induction false} StaleInLongerRun(ws: seq<World>, acts: seq<Action>, ws': seq<World>, acts': seq<Action>,
                                            t: TaskId, i: nat, k: nat)
    requires i <= k <= |acts| < |ws| && ws <= ws' && acts <= acts' && |acts'| < |ws'|
    ensures Stale(ws', acts', t, i, k) == Stale(ws, acts, t, i, k)
    decreases k
  {
    if i < k {
      StaleInLongerRun(ws, acts, ws', acts', t, i, k - 1);
    }
  }
}
