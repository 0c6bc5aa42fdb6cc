/** Version vectors and dots: the causal bookkeeping PMD keeps per replica and per peer. */
module Causality {

  /** A node's UUID, fresh at every start of the daemon. */
  type NodeId = string

  /** A version vector; a replica that is missing from the map counts as 0. */
  type VersionVector = map<NodeId, nat>

  /** The identity of one write: the writing replica and its own running counter, from 1 up. */
  datatype Dot = Dot(replica: NodeId, counter: nat)

  const EMPTY: VersionVector := map[]

  function At(vv: VersionVector, r: NodeId): nat {
    if r in vv then vv[r] else 0
  }

  predicate Covers(vv: VersionVector, d: Dot) {
    d.counter <= At(vv, d.replica)
  }

  ghost predicate Leq(a: VersionVector, b: VersionVector) {
    forall r :: At(a, r) <= At(b, r)
  }

  /** No explicit zero entries, so that pointwise equal vectors are equal maps. */
  ghost predicate Canonical(vv: VersionVector) {
    forall r :: r in vv ==> vv[r] > 0
  }

  /** Pointwise maximum. */
  function Join(a: VersionVector, b: VersionVector): (j: VersionVector)
    ensures forall r :: At(j, r) == if At(a, r) < At(b, r) then At(b, r) else At(a, r)
    ensures j.Keys == a.Keys + b.Keys
    ensures Canonical(a) && Canonical(b) ==> Canonical(j)
  {
    map r | r in a.Keys + b.Keys :: if At(a, r) < At(b, r) then At(b, r) else At(a, r)
  }

  lemma LeqTransitive(a: VersionVector, b: VersionVector, c: VersionVector)
    requires Leq(a, b) && Leq(b, c)
    ensures Leq(a, c)
  {
    forall r ensures At(a, r) <= At(c, r) {
      assert At(a, r) <= At(b, r) <= At(c, r);
    }
  }

  /** On canonical vectors the order is antisymmetric: it identifies equal maps. */
  lemma LeqAntisymmetric(a: VersionVector, b: VersionVector)
    requires Leq(a, b) && Leq(b, a) && Canonical(a) && Canonical(b)
    ensures a == b
  {
    forall r ensures (r in a <==> r in b) && (r in a ==> a[r] == b[r]) {
      assert At(a, r) == At(b, r);
    }
  }
}
