/** Mesh expansion: when to open one more connection, and to whom. */
module Mesh {
  import opened Causality

  /** The least t with t * t >= n. */
  function CeilSqrt(n: nat): (t: nat)
    ensures n <= t * t && (t > 0 ==> (t - 1) * (t - 1) < n)
  {
    if n == 0 then 0
    else
      var t := CeilSqrt(n - 1);
      if n <= t * t then t else t + 1
  }

  function SaturatingSub(a: nat, b: nat): nat {
    if b <= a then a - b else 0
  }

  /** With n members and d direct peers, one more connection is wanted. */
  predicate Wants(n: nat, d: nat) {
    d < CeilSqrt(n) && d < SaturatingSub(n, 1)
  }

  /** One more is wanted while the peers are fewer than the square root of the members, and than the other members. */
  lemma WantsIff(n: nat, d: nat)
    ensures Wants(n, d) <==> d * d < n && d + 1 < n
  {
    var t := CeilSqrt(n);
    if d < t {
      Products(d, t - 1);
    } else {
      Products(t, d);
    }
  }

  lemma Products(a: nat, b: nat)
    requires a <= b
    ensures a * a <= b * b
  {
    assert a * a <= a * b <= b * b;
  }

  /** Members we are not connected to, ourselves apart. */
  function Indirect(members: set<NodeId>, self: NodeId, peers: set<NodeId>): set<NodeId> {
    set n | n in members && n != self && n !in peers
  }

  lemma {:induction false} SubsetSize<T>(a: set<T>, b: set<T>)
    requires a <= b
    ensures |a| <= |b|
    decreases a
  {
    if x :| x in a {
      SubsetSize(a - {x}, b - {x});
    }
  }

  lemma IndirectSize(members: set<NodeId>, self: NodeId, peers: set<NodeId>)
    ensures |members| <= |Indirect(members, self, peers)| + |peers| + 1
  {
    var cover := Indirect(members, self, peers) + peers + {self};
    SubsetSize(members, cover);
  }

  /**
   Whenever expansion is wanted there is somebody to connect to, even if some peers are not members and
   even if this node is not one itself.
   */
  lemma CandidateExists(members: set<NodeId>, self: NodeId, peers: set<NodeId>)
    requires Wants(|members|, |peers|)
    ensures Indirect(members, self, peers) != {}
  {
    IndirectSize(members, self, peers);
  }

  /** One attempt that connected to a member which is neither this node nor a peer already. */
  ghost predicate ConnectsOne(members: set<NodeId>, self: NodeId, before: set<NodeId>, after: set<NodeId>) {
    exists c :: c in members && c != self && c !in before && after == before + {c}
  }

  lemma OneMorePeer(members: set<NodeId>, self: NodeId, before: set<NodeId>, after: set<NodeId>)
    requires ConnectsOne(members, self, before, after)
    ensures |after| == |before| + 1 && before <= after <= before + (members - {self})
  {
    var c :| c in members && c != self && c !in before && after == before + {c};
    assert c !in before;
  }

  /** Expansion rounds over a fixed membership, every attempt connecting to one such member. */
  ghost predicate Rounds(members: set<NodeId>, self: NodeId, ps: seq<set<NodeId>>) {
    && |ps| > 0
    && forall k :: 0 <= k < |ps| - 1 ==>
         Wants(|members|, |ps[k]|)
         && ConnectsOne(members, self, ps[k], ps[k + 1])
  }

  lemma {:induction false} RoundsGrow(members: set<NodeId>, self: NodeId, ps: seq<set<NodeId>>, k: nat)
    requires Rounds(members, self, ps) && k < |ps|
    ensures |ps[k]| == |ps[0]| + k && ps[0] <= ps[k] <= ps[0] + (members - {self})
    decreases k
  {
    if k > 0 {
      RoundsGrow(members, self, ps, k - 1);
      OneMorePeer(members, self, ps[k - 1], ps[k - 1 + 1]);
    }
  }

  /**
   Expansion stops: it adds members other than the node itself, keeps every peer, and makes attempts as long as the
   peers are fewer than the square root of the members and than the other members; so it makes at most the number that
   is missing to the lesser of the two, and exactly that many when it runs to its end.
   */
  lemma ExpansionStops(members: set<NodeId>, self: NodeId, ps: seq<set<NodeId>>, t: nat)
    requires Rounds(members, self, ps)
    requires |members| <= t * t && (t > 0 ==> (t - 1) * (t - 1) < |members|)
    ensures var n, last := |members|, ps[|ps| - 1];
      var limit := if n == 0 then 0 else if t < n - 1 then t else n - 1;
      && |last| == |ps[0]| + (|ps| - 1)
      && ps[0] <= last <= ps[0] + members && (self !in ps[0] ==> self !in last)
      && (|ps| > 1 ==> |last| <= limit)
      && (!Wants(n, |last|) <==> |last| >= limit)
  {
    var n := |members|;
    RoundsGrow(members, self, ps, |ps| - 1);
    LeastRoot(n, t);
    if |ps| > 1 {
      RoundsGrow(members, self, ps, |ps| - 2);
      assert Wants(|members|, |ps[|ps| - 2]|);
    }
  }

  /** The least number whose square is at least `n` is unique. */
  lemma LeastRoot(n: nat, t: nat)
    requires n <= t * t && (t > 0 ==> (t - 1) * (t - 1) < n)
    ensures CeilSqrt(n) == t
  {
    var r := CeilSqrt(n);
    if r < t {
      Products(r, t - 1);
    } else if t < r {
      Products(t, r - 1);
    }
  }
}
