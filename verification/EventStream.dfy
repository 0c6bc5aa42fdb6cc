/**
 What a subscriber of membership events gets: a bounded broadcast channel that keeps the last events, and a
 loop that forwards them until a receive or a write fails.
 */
module EventStream {
  import opened Causality
  import opened Document
  import opened Membership
  import opened Daemon
  import opened Sessions
  import opened Cluster
  import opened ClusterInvariant
  import opened Guarantees
  import opened Tombstones

  /** How many events the channel keeps for a slow receiver. */
  const CAPACITY: nat := 256

  /** The subscribe loop of one control connection; `events` is the daemon's broadcast log. */
  class Subscriber {
    var next: nat
    var forwarded: seq<MembershipChange>
    var open: bool
    ghost const start: nat

    /** `subscribe()`: receives what is sent from now on. */
    constructor (ghost events: seq<MembershipChange>, now: nat)
      requires now == |events|
      ensures start == |events| && Follows(events) && forwarded == [] && open
    {
      next, forwarded, open := now, [], true;
      start := now;
    }

    /** What was forwarded is a contiguous piece of the log, from the subscription on. */
    ghost predicate Follows(events: seq<MembershipChange>)
      reads this
    {
      start <= next <= |events| && forwarded == events[start..next]
    }

    /**
     Runs the loop on the events there are: a receiver that lags behind the channel gets an error instead
     of an event and stops; so does a failing write, after `writable` more events.
     */
    method Forward(events: seq<MembershipChange>, writable: nat)
      requires Follows(events)
      modifies this
      ensures Follows(events) && old(next) <= next
      ensures open ==> old(open) && forwarded == events[start..]
      ensures old(open) && |events| - old(next) <= 256 && |events| - old(next) <= writable ==> open
      ensures !old(open) || |events| - old(next) > 256 ==> forwarded == old(forwarded) && !open
    {
      var left := writable;
      ghost var begun := next;
      while open && next < |events|
        invariant Follows(events) && begun <= next && left + next == writable + begun
        invariant open ==> old(open)
        invariant |events| - begun > CAPACITY || !old(open) ==> next == begun
        invariant old(open) && |events| - begun <= CAPACITY && |events| - begun <= writable ==> open
        decreases open, |events| - next
      {
        if |events| - next > CAPACITY {
          open := false;
        } else if left == 0 {
          open := false;
        } else {
          assert events[start..next + 1] == events[start..next] + [events[next]];
          forwarded := forwarded + [events[next]];
          next, left := next + 1, left - 1;
        }
      }
    }
  }

  /** Events broadcast later do not disturb what a subscriber holds. */
  lemma FollowsStillHolds(s: Subscriber, events: seq<MembershipChange>, more: seq<MembershipChange>)
    requires s.Follows(events) && events <= more
    ensures s.Follows(more)
  {
    assert more[s.start..s.next] == events[s.start..s.next];
  }

  /**
   A subscriber that subscribed in world `i`, with the member ids of that world as its snapshot, and was last
   served in world `k`, still follows the log of every later world `j`. Once it is up to date there it knows
   the member ids of world `j`, up to the node itself if that has shut down since and the view still holds it.
   */
  lemma SubscriberKnowsMembers(rule: Rule, ws: seq<World>, acts: seq<Action>, i: nat, k: nat, j: nat, a: NodeId,
                               s: Subscriber)
    requires Lawful(rule) && IsRun(rule, ws, acts) && i <= k <= j < |ws| && a in ws[i].nodes && a in ws[k].nodes
    requires s.start == |EventsAt(ws[i], a)| && s.Follows(EventsAt(ws[k], a))
    ensures a in ws[j].nodes && s.Follows(EventsAt(ws[j], a))
    ensures s.next == |EventsAt(ws[j], a)| ==>
      var view := Replay(IdsAt(ws[i], rule, a), s.forwarded);
      && view - {a} == IdsAt(ws[j], rule, a) - {a}
      && (view == IdsAt(ws[j], rule, a) <==> (forall l :: i <= l < j ==> !IsStop(acts[l], a)) || a !in view)
  {
    EventReplay(rule, ws, acts, k, j, a);
    FollowsStillHolds(s, EventsAt(ws[k], a), EventsAt(ws[j], a));
    EventReplay(rule, ws, acts, i, j, a);
    ReplayExact(rule, ws, acts, i, j, a);
    var log := EventsAt(ws[j], a);
    assert s.next == |log| ==> log[s.start..s.next] == log[|EventsAt(ws[i], a)|..];
  }

  /** A node that has shut down never lists itself again. */
  lemma StoppedIsGone(rule: Rule, ws: seq<World>, acts: seq<Action>, k: nat, j: nat, a: NodeId)
    requires Lawful(rule) && IsRun(rule, ws, acts) && k < j < |ws| && IsStop(acts[k], a)
    ensures a in ws[k].nodes && a in ws[j].nodes && a !in IdsAt(ws[j], rule, a)
  {
    assert Enabled(ws[k], rule, acts[k]);
    assert Covers(DocOf(ws[k], a).vv, Dot(a, 1)) by {
      RunInv(rule, ws, acts, k);
    }
    VectorsGrow(rule, ws, acts, k, j, a);
    RemovedForGood(rule, ws, acts, k, j, a, a, a);
  }

  /**
   Exactly when a replayed view is right: without a shutdown of the node since, always; after one, if and only if
   the view does not hold the node itself.
   */
  lemma ReplayExact(rule: Rule, ws: seq<World>, acts: seq<Action>, i: nat, j: nat, a: NodeId)
    requires Lawful(rule) && IsRun(rule, ws, acts) && i <= j < |ws| && a in ws[i].nodes
    ensures a in ws[j].nodes && EventsAt(ws[i], a) <= EventsAt(ws[j], a)
    ensures var view := Replay(IdsAt(ws[i], rule, a), EventsAt(ws[j], a)[|EventsAt(ws[i], a)|..]);
      view == IdsAt(ws[j], rule, a) <==> (forall k :: i <= k < j ==> !IsStop(acts[k], a)) || a !in view
  {
    EventReplay(rule, ws, acts, i, j, a);
    if k :| i <= k < j && IsStop(acts[k], a) {
      StoppedIsGone(rule, ws, acts, k, j, a);
      SameBut(IdsAt(ws[j], rule, a), Replay(IdsAt(ws[i], rule, a), EventsAt(ws[j], a)[|EventsAt(ws[i], a)|..]), a);
    }
  }

  lemma SameBut(x: set<NodeId>, y: set<NodeId>, a: NodeId)
    requires x - {a} == y - {a} && a !in x
    ensures x == y <==> a !in y
  {
    assert x == x - {a};
    assert a !in y ==> y == y - {a};
  }
}
