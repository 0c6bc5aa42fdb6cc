/**
 The replicated JSON document PMD keeps its membership in, as a small operation-based model of the
 delta-state library it uses: every write carries its dot and the vector its writer had seen, a delta
 is the writes a given vector does not cover together with the sender's vector, merging is union plus
 pointwise maximum, and reading a path picks one of its causally maximal writes.
 */
module Document {
  import opened Causality

  datatype Option<+T> = None | Some(value: T)

  type Port = p: nat | p < 65536

  datatype Path =
    | NodePath(id: NodeId)
    | ServicePath(owner: NodeId, name: string)

  /** A JSON object with the fields PMD writes and reads; an absent key is `None`. */
  datatype Record = Record(
    status: Option<string>,
    addr: Option<string>,
    port: Option<Port>,
    metadata: map<string, string>,
    joinedAt: Option<nat>)

  datatype Op = Set(record: Record) | Remove

  datatype Write = Write(dot: Dot, path: Path, op: Op, seen: VersionVector)

  datatype Doc = Doc(replica: NodeId, vv: VersionVector, writes: set<Write>)

  datatype Delta = Delta(writes: set<Write>, vv: VersionVector)

  /** How the library settles concurrent writes: any deterministic choice among the candidates. */
  type Rule = set<Write> -> Write

  ghost predicate Lawful(rule: Rule) {
    forall s: set<Write> :: s != {} ==> rule(s) in s
  }

  function NewDoc(replica: NodeId): Doc {
    Doc(replica, EMPTY, {})
  }

  function NextDot(doc: Doc): Dot {
    Dot(doc.replica, At(doc.vv, doc.replica) + 1)
  }

  function NextWrite(doc: Doc, path: Path, op: Op): Write {
    Write(NextDot(doc), path, op, doc.vv)
  }

  /** `doc.set(path, value)` and `doc.remove(path)`. */
  function LocalWrite(doc: Doc, path: Path, op: Op): Doc {
    var w := NextWrite(doc, path, op);
    Doc(doc.replica, doc.vv[doc.replica := w.dot.counter], doc.writes + {w})
  }

  function DeltaSince(doc: Doc, vv: VersionVector): Delta {
    Delta((set w | w in doc.writes && !Covers(vv, w.dot)), doc.vv)
  }

  function MergeDelta(doc: Doc, delta: Delta): Doc {
    Doc(doc.replica, Join(doc.vv, delta.vv), doc.writes + delta.writes)
  }

  /** The causally maximal writes of a path. */
  function Candidates(doc: Doc, path: Path): set<Write> {
    set w | w in doc.writes && w.path == path
            && forall v :: v in doc.writes && v.path == path ==> !Covers(v.seen, w.dot)
  }

  /** What `materialize()` shows at a path. */
  function Entry(doc: Doc, rule: Rule, path: Path): Option<Record> {
    var c := Candidates(doc, path);
    if c == {} then None
    else match rule(c).op
      case Set(record) => Some(record)
      case Remove => None
  }

  // -- Local validity: what one replica's document keeps whatever its peers send ------------------

  /** The writes of `ws` are covered by `vv`, and so is everything their authors had seen. */
  ghost predicate Closed(ws: set<Write>, vv: VersionVector) {
    forall w :: w in ws ==> 1 <= w.dot.counter && Covers(vv, w.dot) && Leq(w.seen, vv)
  }

  ghost predicate ValidDoc(doc: Doc) {
    Closed(doc.writes, doc.vv)
  }

  ghost predicate ValidDelta(delta: Delta) {
    Closed(delta.writes, delta.vv)
  }

  lemma LocalWriteValid(doc: Doc, path: Path, op: Op)
    requires ValidDoc(doc)
    ensures ValidDoc(LocalWrite(doc, path, op))
    ensures Leq(doc.vv, LocalWrite(doc, path, op).vv)
    ensures Covers(LocalWrite(doc, path, op).vv, NextDot(doc))
  {
    var after := LocalWrite(doc, path, op);
    assert forall r :: At(doc.vv, r) <= At(after.vv, r);
    forall w | w in after.writes
      ensures 1 <= w.dot.counter && Covers(after.vv, w.dot) && Leq(w.seen, after.vv)
    {
      if w in doc.writes {
        LeqTransitive(w.seen, doc.vv, after.vv);
      }
    }
  }

  /** The writes of a document that a vector covers. */
  function Covered(doc: Doc, vv: VersionVector): set<Write> {
    set w | w in doc.writes && Covers(vv, w.dot)
  }

  /** A delta and the writes its vector covers make up the document, and what nobody has seen yet is everything. */
  lemma DeltaSinceSplits(doc: Doc, vv: VersionVector)
    ensures DeltaSince(doc, vv).writes !! Covered(doc, vv)
    ensures DeltaSince(doc, vv).writes + Covered(doc, vv) == doc.writes
    ensures ValidDoc(doc) ==> ValidDelta(DeltaSince(doc, vv)) && DeltaSince(doc, EMPTY).writes == doc.writes
  {
    assert forall w :: w in doc.writes ==> w in DeltaSince(doc, vv).writes + Covered(doc, vv);
  }

  lemma MergeDeltaValid(doc: Doc, delta: Delta)
    requires ValidDoc(doc) && ValidDelta(delta)
    ensures ValidDoc(MergeDelta(doc, delta))
    ensures Leq(doc.vv, MergeDelta(doc, delta).vv) && Leq(delta.vv, MergeDelta(doc, delta).vv)
  {
    var after := MergeDelta(doc, delta);
    assert Leq(doc.vv, after.vv) && Leq(delta.vv, after.vv);
    forall w | w in after.writes
      ensures 1 <= w.dot.counter && Covers(after.vv, w.dot) && Leq(w.seen, after.vv)
    {
      LeqTransitive(w.seen, if w in doc.writes then doc.vv else delta.vv, after.vv);
    }
  }

  /** A write made now supersedes everything its replica knows at that path and touches no other path. */
  lemma LocalWriteWins(doc: Doc, path: Path, op: Op)
    requires ValidDoc(doc)
    ensures Candidates(LocalWrite(doc, path, op), path) == {NextWrite(doc, path, op)}
    ensures forall p :: p != path ==> Candidates(LocalWrite(doc, path, op), p) == Candidates(doc, p)
  {
    var w := NextWrite(doc, path, op);
    var after := LocalWrite(doc, path, op);
    assert forall v :: v in doc.writes ==> Covers(w.seen, v.dot);
    forall v | v in after.writes
      ensures !Covers(v.seen, w.dot)
    {
      if v in doc.writes {
        assert At(v.seen, doc.replica) <= At(doc.vv, doc.replica);
      }
    }
    assert w in Candidates(after, path);
    forall p | p != path
      ensures Candidates(after, p) == Candidates(doc, p)
    {
      assert forall v :: v in after.writes && v.path == p <==> v in doc.writes && v.path == p;
    }
  }

  /** Reading back a local write, under every lawful rule. */
  lemma ReadYourWrite(doc: Doc, rule: Rule, path: Path, op: Op)
    requires ValidDoc(doc) && Lawful(rule)
    ensures Entry(LocalWrite(doc, path, op), rule, path) == if op.Set? then Some(op.record) else None
    ensures forall p :: p != path ==> Entry(LocalWrite(doc, path, op), rule, p) == Entry(doc, rule, p)
  {
    LocalWriteWins(doc, path, op);
    var w := NextWrite(doc, path, op);
    assert {w} != {} && rule({w}) in {w};
    assert rule({w}) == w;
  }

  lemma SameVector(x: VersionVector, y: VersionVector)
    requires x.Keys == y.Keys && forall r :: At(x, r) == At(y, r)
    ensures x == y
  {
    forall r | r in x ensures x[r] == y[r] {
      assert At(x, r) == At(y, r);
    }
  }

  lemma JoinExchange(a: VersionVector, b: VersionVector, c: VersionVector)
    ensures Join(Join(a, b), c) == Join(Join(a, c), b)
  {
    var ab, ac := Join(a, b), Join(a, c);
    var x, y := Join(ab, c), Join(ac, b);
    assert a.Keys + b.Keys + c.Keys == a.Keys + c.Keys + b.Keys;
    forall r ensures At(x, r) == At(y, r) {
      assert At(ab, r) == if At(a, r) < At(b, r) then At(b, r) else At(a, r);
      assert At(ac, r) == if At(a, r) < At(c, r) then At(c, r) else At(a, r);
    }
    SameVector(x, y);
  }

  lemma JoinIdempotent(a: VersionVector, b: VersionVector)
    ensures Join(Join(a, b), b) == Join(a, b)
  {
    var ab := Join(a, b);
    assert ab.Keys == a.Keys + b.Keys;
    SameVector(Join(ab, b), ab);
  }

  /** Merging is commutative and idempotent in the received deltas. */
  lemma MergeOrderIrrelevant(doc: Doc, d: Delta, e: Delta)
    ensures MergeDelta(MergeDelta(doc, d), e) == MergeDelta(MergeDelta(doc, e), d)
    ensures MergeDelta(MergeDelta(doc, d), d) == MergeDelta(doc, d)
  {
    JoinExchange(doc.vv, d.vv, e.vv);
    JoinIdempotent(doc.vv, d.vv);
    assert doc.writes + d.writes + e.writes == doc.writes + e.writes + d.writes;
    assert doc.writes + d.writes + d.writes == doc.writes + d.writes;
  }
}
