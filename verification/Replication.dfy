/**
 Replicas of the document across a cluster: `history` is every write ever made, `docs` the document of
 every node ever started. What makes delta sync safe is that a vector stored for a peer never runs ahead
 of that peer, and that a delta always carries what its receiver's vector leaves out.
 */
module Replication {
  import opened Causality
  import opened Document

  type Docs = map<NodeId, Doc>

  ghost predicate HasWrite(ws: set<Write>, d: Dot) {
    exists w :: w in ws && w.dot == d
  }

  /** Writes are authentic and identified by their dot, and every author's counter is gap-free. */
  ghost predicate WellAuthored(history: set<Write>, docs: Docs) {
    && (forall w :: w in history ==>
          && w.dot.replica in docs && 1 <= w.dot.counter
          && Covers(docs[w.dot.replica].vv, w.dot))
    && (forall v, w :: v in history && w in history && v.dot == w.dot ==> v == w)
    && (forall r, k :: r in docs && 1 <= k <= At(docs[r].vv, r) ==> HasWrite(history, Dot(r, k)))
  }

  /** No vector runs ahead of an author. */
  ghost predicate Behind(vv: VersionVector, docs: Docs) {
    && Canonical(vv)
    && forall r :: At(vv, r) > 0 ==> r in docs && At(vv, r) <= At(docs[r].vv, r)
  }

  /** The vector is causally closed: with a write it covers all that the write's author had seen. */
  ghost predicate CausallyClosed(history: set<Write>, vv: VersionVector) {
    forall w :: w in history && Covers(vv, w.dot) ==> Leq(w.seen, vv)
  }

  /** A replica's writes are exactly the part of the history its vector covers. */
  ghost predicate Exact(history: set<Write>, doc: Doc) {
    forall w :: w in doc.writes <==> w in history && Covers(doc.vv, w.dot)
  }

  ghost predicate Consistent(history: set<Write>, docs: Docs) {
    && WellAuthored(history, docs)
    && forall a :: a in docs ==>
         && docs[a].replica == a
         && Behind(docs[a].vv, docs)
         && CausallyClosed(history, docs[a].vv)
         && Exact(history, docs[a])
  }

  /** `vv` may be stored as what node `t` is known to have. */
  ghost predicate GoodClaim(docs: Docs, t: NodeId, vv: VersionVector) {
    t in docs && Leq(vv, docs[t].vv)
  }

  /** `d`, made by `s`, may be merged by `t` without leaving a gap. */
  ghost predicate GoodDelta(history: set<Write>, docs: Docs, s: NodeId, t: NodeId, d: Delta) {
    && s in docs && t in docs
    && Canonical(d.vv) && Leq(d.vv, docs[s].vv)
    && CausallyClosed(history, d.vv)
    && (forall w :: w in d.writes ==> w in history && Covers(d.vv, w.dot))
    && (forall w :: w in history && Covers(d.vv, w.dot) ==> w in d.writes || Covers(docs[t].vv, w.dot))
  }

  /** The cluster may move from one replication state to the other: vectors and history only grow. */
  ghost predicate Evolves(history: set<Write>, docs: Docs, history': set<Write>, docs': Docs) {
    && history <= history'
    && docs.Keys <= docs'.Keys
    && (forall a :: a in docs ==> Leq(docs[a].vv, docs'[a].vv))
    && (forall a, w :: a in docs && w in history' && Covers(docs[a].vv, w.dot) ==> w in history)
  }

  lemma EvolvesReflexive(history: set<Write>, docs: Docs)
    ensures Evolves(history, docs, history, docs)
  {
  }

  lemma EvolvesTransitive(h0: set<Write>, d0: Docs, h1: set<Write>, d1: Docs, h2: set<Write>, d2: Docs)
    requires Evolves(h0, d0, h1, d1) && Evolves(h1, d1, h2, d2)
    ensures Evolves(h0, d0, h2, d2)
  {
    forall a | a in d0 ensures Leq(d0[a].vv, d2[a].vv) {
      LeqTransitive(d0[a].vv, d1[a].vv, d2[a].vv);
    }
    forall a, w | a in d0 && w in h2 && Covers(d0[a].vv, w.dot) ensures w in h0 {
      assert At(d0[a].vv, w.dot.replica) <= At(d1[a].vv, w.dot.replica);
      assert Covers(d1[a].vv, w.dot);
    }
  }

  lemma ClaimSurvives(history: set<Write>, docs: Docs, history': set<Write>, docs': Docs,
                      t: NodeId, vv: VersionVector)
    requires Evolves(history, docs, history', docs') && GoodClaim(docs, t, vv)
    ensures GoodClaim(docs', t, vv)
  {
    LeqTransitive(vv, docs[t].vv, docs'[t].vv);
  }

  /** A delta on its way stays mergeable whatever happens meanwhile. */
  lemma DeltaSurvives(history: set<Write>, docs: Docs, history': set<Write>, docs': Docs,
                      s: NodeId, t: NodeId, d: Delta)
    requires Evolves(history, docs, history', docs') && GoodDelta(history, docs, s, t, d)
    ensures GoodDelta(history', docs', s, t, d)
  {
    LeqTransitive(d.vv, docs[s].vv, docs'[s].vv);
    forall w | w in history' && Covers(d.vv, w.dot)
      ensures w in history && Leq(w.seen, d.vv) && (w in d.writes || Covers(docs'[t].vv, w.dot))
    {
      assert At(d.vv, w.dot.replica) <= At(docs[s].vv, w.dot.replica);
      assert Covers(docs[s].vv, w.dot);
      assert At(docs[t].vv, w.dot.replica) <= At(docs'[t].vv, w.dot.replica);
    }
  }

  /** A delta computed from a vector the receiver is known to have is mergeable by it. */
  lemma MakeDelta(history: set<Write>, docs: Docs, s: NodeId, t: NodeId, last: VersionVector)
    requires Consistent(history, docs) && s in docs && GoodClaim(docs, t, last)
    ensures GoodDelta(history, docs, s, t, DeltaSince(docs[s], last))
  {
    var d := DeltaSince(docs[s], last);
    forall w | w in history && Covers(d.vv, w.dot)
      ensures w in d.writes || Covers(docs[t].vv, w.dot)
    {
      assert At(last, w.dot.replica) <= At(docs[t].vv, w.dot.replica);
    }
  }

  lemma GoodDeltaIsValid(history: set<Write>, docs: Docs, s: NodeId, t: NodeId, d: Delta)
    requires Consistent(history, docs) && GoodDelta(history, docs, s, t, d)
    ensures ValidDelta(d)
  {
  }

  lemma ConsistentIsValid(history: set<Write>, docs: Docs, a: NodeId)
    requires Consistent(history, docs) && a in docs
    ensures ValidDoc(docs[a])
  {
  }

  /** A node's own entry moves only with its own writes. */
  lemma MergeKeepsOwnCounter(history: set<Write>, docs: Docs, s: NodeId, t: NodeId, d: Delta)
    requires Consistent(history, docs) && GoodDelta(history, docs, s, t, d)
    ensures At(MergeDelta(docs[t], d).vv, t) == At(docs[t].vv, t)
  {
    assert At(d.vv, t) <= At(docs[s].vv, t) <= At(docs[t].vv, t);
  }

  lemma MergedBehind(history: set<Write>, docs: Docs, s: NodeId, t: NodeId, d: Delta)
    requires Consistent(history, docs) && GoodDelta(history, docs, s, t, d)
    ensures Behind(MergeDelta(docs[t], d).vv, docs)
  {
    var after := MergeDelta(docs[t], d);
    forall r | At(after.vv, r) > 0
      ensures r in docs && At(after.vv, r) <= At(docs[r].vv, r)
    {
      assert At(d.vv, r) <= At(docs[s].vv, r);
      assert At(docs[t].vv, r) > 0 || At(docs[s].vv, r) > 0;
    }
  }

  lemma MergedClosed(history: set<Write>, doc: Doc, d: Delta)
    requires CausallyClosed(history, doc.vv) && Exact(history, doc) && CausallyClosed(history, d.vv)
    requires forall w :: w in d.writes ==> w in history && Covers(d.vv, w.dot)
    requires forall w :: w in history && Covers(d.vv, w.dot) ==> w in d.writes || Covers(doc.vv, w.dot)
    ensures CausallyClosed(history, MergeDelta(doc, d).vv)
    ensures Exact(history, MergeDelta(doc, d))
    ensures Leq(doc.vv, MergeDelta(doc, d).vv)
  {
    var after := MergeDelta(doc, d);
    assert Leq(doc.vv, after.vv) && Leq(d.vv, after.vv);
    forall w | w in history && Covers(after.vv, w.dot) ensures Leq(w.seen, after.vv) {
      LeqTransitive(w.seen, if Covers(d.vv, w.dot) then d.vv else doc.vv, after.vv);
    }
    forall w ensures w in after.writes <==> w in history && Covers(after.vv, w.dot) {
      assert Covers(after.vv, w.dot) <==> Covers(doc.vv, w.dot) || Covers(d.vv, w.dot);
    }
  }

  lemma BehindSame(vv: VersionVector, docs: Docs, docs': Docs)
    requires Behind(vv, docs) && docs'.Keys == docs.Keys
    requires forall r :: r in docs ==> At(docs'[r].vv, r) == At(docs[r].vv, r)
    ensures Behind(vv, docs')
  {
  }

  lemma SameAuthors(history: set<Write>, docs: Docs, docs': Docs)
    requires WellAuthored(history, docs) && docs'.Keys == docs.Keys
    requires forall r :: r in docs ==> At(docs'[r].vv, r) == At(docs[r].vv, r)
    ensures WellAuthored(history, docs')
  {
  }

  /** Replacing one document by a larger one that is itself in order. */
  lemma ReplaceDoc(history: set<Write>, docs: Docs, a: NodeId, after: Doc)
    requires Consistent(history, docs) && a in docs && after.replica == a
    requires At(after.vv, a) == At(docs[a].vv, a) && Leq(docs[a].vv, after.vv)
    requires Behind(after.vv, docs) && CausallyClosed(history, after.vv) && Exact(history, after)
    ensures Consistent(history, docs[a := after])
    ensures Evolves(history, docs, history, docs[a := after])
  {
    var docs' := docs[a := after];
    assert forall r :: r in docs ==> r in docs' && At(docs'[r].vv, r) == At(docs[r].vv, r);
    forall b | b in docs' ensures Behind(docs'[b].vv, docs') {
      assert Behind(docs'[b].vv, docs);
      BehindSame(docs'[b].vv, docs, docs');
    }
    SameAuthors(history, docs, docs');
  }

  /** Merging a mergeable delta keeps the cluster consistent. */
  lemma MergeStep(history: set<Write>, docs: Docs, s: NodeId, t: NodeId, d: Delta)
    requires Consistent(history, docs) && GoodDelta(history, docs, s, t, d)
    ensures var docs' := docs[t := MergeDelta(docs[t], d)];
      Consistent(history, docs') && Evolves(history, docs, history, docs')
  {
    MergeKeepsOwnCounter(history, docs, s, t, d);
    MergedBehind(history, docs, s, t, d);
    MergedClosed(history, docs[t], d);
    ReplaceDoc(history, docs, t, MergeDelta(docs[t], d));
  }

  /** Nobody covers a dot before it is written. */
  lemma NextDotIsFresh(history: set<Write>, docs: Docs, a: NodeId)
    requires Consistent(history, docs) && a in docs
    ensures forall b :: b in docs ==> !Covers(docs[b].vv, NextDot(docs[a]))
    ensures !HasWrite(history, NextDot(docs[a]))
  {
    forall b | b in docs ensures !Covers(docs[b].vv, NextDot(docs[a])) {
      assert At(docs[b].vv, a) <= At(docs[a].vv, a);
    }
  }

  lemma WriteKeepsAuthors(history: set<Write>, docs: Docs, a: NodeId, path: Path, op: Op)
    requires Consistent(history, docs) && a in docs
    ensures WellAuthored(history + {NextWrite(docs[a], path, op)}, docs[a := LocalWrite(docs[a], path, op)])
  {
    var w := NextWrite(docs[a], path, op);
    var history' := history + {w};
    var docs' := docs[a := LocalWrite(docs[a], path, op)];
    NextDotIsFresh(history, docs, a);
    assert forall r :: r in docs ==> At(docs[r].vv, r) <= At(docs'[r].vv, r);
    forall r, k | r in docs' && 1 <= k <= At(docs'[r].vv, r)
      ensures HasWrite(history', Dot(r, k))
    {
      if r == a && k == w.dot.counter {
        assert w in history';
      } else {
        assert HasWrite(history, Dot(r, k));
        var v :| v in history && v.dot == Dot(r, k);
        assert v in history';
      }
    }
  }

  lemma OtherDocUnmoved(history: set<Write>, w: Write, docs: Docs, docs': Docs, doc: Doc)
    requires Behind(doc.vv, docs) && CausallyClosed(history, doc.vv) && Exact(history, doc)
    requires !Covers(doc.vv, w.dot)
    requires forall r :: r in docs ==> r in docs' && At(docs[r].vv, r) <= At(docs'[r].vv, r)
    ensures Behind(doc.vv, docs')
    ensures CausallyClosed(history + {w}, doc.vv) && Exact(history + {w}, doc)
  {
    forall r | At(doc.vv, r) > 0 ensures r in docs' && At(doc.vv, r) <= At(docs'[r].vv, r) {
    }
  }

  lemma WriterInOrder(history: set<Write>, docs: Docs, a: NodeId, path: Path, op: Op)
    requires Consistent(history, docs) && a in docs
    ensures var w := NextWrite(docs[a], path, op);
      var after := LocalWrite(docs[a], path, op);
      && Leq(docs[a].vv, after.vv)
      && Behind(after.vv, docs[a := after])
      && CausallyClosed(history + {w}, after.vv) && Exact(history + {w}, after)
  {
    var w := NextWrite(docs[a], path, op);
    var after := LocalWrite(docs[a], path, op);
    NextDotIsFresh(history, docs, a);
    assert forall r :: At(after.vv, r) == if r == a then w.dot.counter else At(docs[a].vv, r);
    assert Leq(docs[a].vv, after.vv);
    forall v | v in history && Covers(after.vv, v.dot)
      ensures Covers(docs[a].vv, v.dot) && Leq(v.seen, after.vv)
    {
      assert v.dot != w.dot;
      LeqTransitive(v.seen, docs[a].vv, after.vv);
    }
  }

  lemma WriteEvolves(history: set<Write>, docs: Docs, a: NodeId, path: Path, op: Op)
    requires Consistent(history, docs) && a in docs
    ensures Evolves(history, docs, history + {NextWrite(docs[a], path, op)},
                    docs[a := LocalWrite(docs[a], path, op)])
  {
    NextDotIsFresh(history, docs, a);
    WriterInOrder(history, docs, a, path, op);
  }

  /** A local write keeps the cluster consistent. */
  lemma LocalWriteStep(history: set<Write>, docs: Docs, a: NodeId, path: Path, op: Op)
    requires Consistent(history, docs) && a in docs
    ensures var w := NextWrite(docs[a], path, op);
      var docs' := docs[a := LocalWrite(docs[a], path, op)];
      Consistent(history + {w}, docs') && Evolves(history, docs, history + {w}, docs')
  {
    var w := NextWrite(docs[a], path, op);
    var docs' := docs[a := LocalWrite(docs[a], path, op)];
    WriteKeepsAuthors(history, docs, a, path, op);
    WriteEvolves(history, docs, a, path, op);
    forall b | b in docs'
      ensures && docs'[b].replica == b
              && Behind(docs'[b].vv, docs')
              && CausallyClosed(history + {w}, docs'[b].vv)
              && Exact(history + {w}, docs'[b])
    {
      if b == a {
        WriterInOrder(history, docs, a, path, op);
      } else {
        NextDotIsFresh(history, docs, a);
        forall r | r in docs ensures r in docs' && At(docs[r].vv, r) <= At(docs'[r].vv, r) {
        }
        OtherDocUnmoved(history, w, docs, docs', docs[b]);
      }
    }
  }

  /** A freshly started node, with an id nobody has used. */
  lemma StartStep(history: set<Write>, docs: Docs, id: NodeId)
    requires Consistent(history, docs) && id !in docs
    ensures var docs' := docs[id := NewDoc(id)];
      Consistent(history, docs') && Evolves(history, docs, history, docs')
  {
    var docs' := docs[id := NewDoc(id)];
    forall w | w in history ensures !Covers(EMPTY, w.dot) {
    }
  }

  // -- What consistency gives ---------------------------------------------------------------------

  /** Replicas with equal vectors have equal documents. */
  lemma EqualVectorsEqualWrites(history: set<Write>, docs: Docs, a: NodeId, b: NodeId)
    requires Consistent(history, docs) && a in docs && b in docs && docs[a].vv == docs[b].vv
    ensures docs[a].writes == docs[b].writes
  {
    assert forall w :: w in docs[a].writes <==> w in docs[b].writes;
  }

  /** A replica holds every write its vector covers, each being the author's own. */
  lemma NoGap(history: set<Write>, docs: Docs, a: NodeId, r: NodeId, k: nat)
    requires Consistent(history, docs) && a in docs && 1 <= k <= At(docs[a].vv, r)
    ensures r in docs
    ensures exists w :: w in docs[a].writes && w in docs[r].writes && w.dot == Dot(r, k)
  {
    assert At(docs[a].vv, r) > 0;
    assert HasWrite(history, Dot(r, k));
    var w :| w in history && w.dot == Dot(r, k);
    assert w in docs[a].writes && w in docs[r].writes;
  }

  /** Merging a mergeable delta gives what merging the sender's whole state at that vector would give. */
  lemma DeltaActsAsFull(history: set<Write>, docs: Docs, s: NodeId, t: NodeId, d: Delta)
    requires Consistent(history, docs) && GoodDelta(history, docs, s, t, d)
    ensures MergeDelta(docs[t], d)
         == MergeDelta(docs[t], Delta((set w | w in docs[s].writes && Covers(d.vv, w.dot)), d.vv))
  {
    var full := set w | w in docs[s].writes && Covers(d.vv, w.dot);
    forall w | w in history && Covers(d.vv, w.dot) ensures w in full {
      assert At(d.vv, w.dot.replica) <= At(docs[s].vv, w.dot.replica);
    }
    forall w ensures w in docs[t].writes + d.writes <==> w in docs[t].writes + full {
      if w in full && w !in d.writes {
        assert Covers(docs[t].vv, w.dot);
      }
    }
  }
}
