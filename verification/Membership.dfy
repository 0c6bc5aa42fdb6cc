/** The membership state: nodes and services inside the replicated document. */
module Membership {
  import opened Causality
  import opened Document

  datatype ServiceInfo = ServiceInfo(name: string, port: Port, metadata: map<string, string>)

  datatype NodeInfo = NodeInfo(
    nodeId: NodeId, addr: string, metadata: map<string, string>, joinedAt: nat,
    services: map<string, ServiceInfo>)

  /** One result of a service lookup. */
  datatype Endpoint = Endpoint(nodeId: NodeId, addr: string, port: Port, metadata: map<string, string>)

  datatype MembershipEvent = NodeJoined | NodeLeft

  datatype MembershipChange = MembershipChange(event: MembershipEvent, nodeId: NodeId, addr: string)

  const DEAD: Record := Record(Some("dead"), None, None, map[], None)

  function AliveRecord(addr: string, metadata: map<string, string>, now: nat): Record {
    Record(None, Some(addr), None, metadata, Some(now))
  }

  function ServiceRecord(port: Port, metadata: map<string, string>): Record {
    Record(None, None, Some(port), metadata, None)
  }

  predicate IsDead(r: Record) {
    r.status == Some("dead")
  }

  // -- Reading the document -----------------------------------------------------------------------

  function NodeIds(doc: Doc): set<NodeId> {
    set w | w in doc.writes && w.path.NodePath? :: w.path.id
  }

  function ServiceOwners(doc: Doc): set<NodeId> {
    set w | w in doc.writes && w.path.ServicePath? :: w.path.owner
  }

  function ServiceNames(doc: Doc, n: NodeId): set<string> {
    set w | w in doc.writes && w.path.ServicePath? && w.path.owner == n :: w.path.name
  }

  function NodeEntry(doc: Doc, rule: Rule, n: NodeId): Option<Record> {
    Entry(doc, rule, NodePath(n))
  }

  function ServiceEntry(doc: Doc, rule: Rule, n: NodeId, name: string): Option<Record> {
    Entry(doc, rule, ServicePath(n, name))
  }

  /** The filter of `member_ids`: not tombstoned, and it has an address. */
  predicate Listed(doc: Doc, rule: Rule, n: NodeId) {
    var e := NodeEntry(doc, rule, n);
    e.Some? && !IsDead(e.value) && e.value.addr.Some?
  }

  /** The filter of `members`, which also wants `joined_at`. */
  predicate IsMember(doc: Doc, rule: Rule, n: NodeId) {
    Listed(doc, rule, n) && NodeEntry(doc, rule, n).value.joinedAt.Some?
  }

  function MemberIds(doc: Doc, rule: Rule): map<NodeId, string> {
    map n | n in NodeIds(doc) && Listed(doc, rule, n) :: NodeEntry(doc, rule, n).value.addr.value
  }

  function HasPort(doc: Doc, rule: Rule, n: NodeId, name: string): bool {
    var e := ServiceEntry(doc, rule, n, name);
    e.Some? && e.value.port.Some?
  }

  function NodeServices(doc: Doc, rule: Rule, n: NodeId): map<string, ServiceInfo> {
    map name | name in ServiceNames(doc, n) && HasPort(doc, rule, n, name) ::
      var r := ServiceEntry(doc, rule, n, name).value;
      ServiceInfo(name, r.port.value, r.metadata)
  }

  function Members(doc: Doc, rule: Rule): map<NodeId, NodeInfo> {
    map n | n in NodeIds(doc) && IsMember(doc, rule, n) ::
      var r := NodeEntry(doc, rule, n).value;
      NodeInfo(n, r.addr.value, r.metadata, r.joinedAt.value, NodeServices(doc, rule, n))
  }

  /** A node with an address and an entry under `name`: what `lookup_service` reports. */
  predicate Offers(doc: Doc, rule: Rule, n: NodeId, name: string) {
    && ServiceEntry(doc, rule, n, name).Some?
    && NodeEntry(doc, rule, n).Some?
    && NodeEntry(doc, rule, n).value.addr.Some?
  }

  function OfferedAt(doc: Doc, rule: Rule, n: NodeId, name: string): Endpoint
    requires Offers(doc, rule, n, name)
  {
    var r := ServiceEntry(doc, rule, n, name).value;
    Endpoint(n, NodeEntry(doc, rule, n).value.addr.value, if r.port.Some? then r.port.value else 0, r.metadata)
  }

  /** The result of `lookup_service`, as a set. */
  function Lookup(doc: Doc, rule: Rule, name: string): set<Endpoint> {
    set n | n in ServiceOwners(doc) && Offers(doc, rule, n, name) :: OfferedAt(doc, rule, n, name)
  }

  /** The same question answered by scanning the member list and each member's services. */
  function ScanMembers(doc: Doc, rule: Rule, name: string): set<Endpoint> {
    var ms := Members(doc, rule);
    set n | n in ms && name in ms[n].services ::
      Endpoint(n, ms[n].addr, ms[n].services[name].port, ms[n].services[name].metadata)
  }

  lemma EntryHasWrite(doc: Doc, rule: Rule, path: Path)
    requires Lawful(rule) && Entry(doc, rule, path).Some?
    ensures exists w :: w in Candidates(doc, path) && w.op == Set(Entry(doc, rule, path).value)
  {
    assert rule(Candidates(doc, path)) in Candidates(doc, path);
  }

  lemma MemberIdsExact(doc: Doc, rule: Rule, n: NodeId)
    requires Lawful(rule)
    ensures n in MemberIds(doc, rule) <==> Listed(doc, rule, n)
  {
    if Listed(doc, rule, n) {
      EntryHasWrite(doc, rule, NodePath(n));
    }
  }

  lemma MembersExact(doc: Doc, rule: Rule, n: NodeId)
    requires Lawful(rule)
    ensures n in Members(doc, rule) <==> IsMember(doc, rule, n)
  {
    if IsMember(doc, rule, n) {
      EntryHasWrite(doc, rule, NodePath(n));
    }
  }

  lemma ServiceVisible(doc: Doc, rule: Rule, n: NodeId, name: string)
    requires Lawful(rule) && ServiceEntry(doc, rule, n, name).Some?
    ensures n in ServiceOwners(doc) && name in ServiceNames(doc, n)
  {
    EntryHasWrite(doc, rule, ServicePath(n, name));
  }

  /**
   What the readers show of any document, spelled out: a member id is a node with an address that is not marked dead,
   a member one with a start time besides, a service an entry with a port.
   */
  lemma ReadersExact(doc: Doc, rule: Rule, n: NodeId, name: string)
    requires Lawful(rule)
    ensures var node, service := NodeEntry(doc, rule, n), ServiceEntry(doc, rule, n, name);
      var ids, ms, services := MemberIds(doc, rule), Members(doc, rule), NodeServices(doc, rule, n);
      && (n in ids <==> node.Some? && node.value.status != Some("dead") && node.value.addr.Some?)
      && (n in ids ==> ids[n] == node.value.addr.value)
      && (n in ms <==> n in ids && node.value.joinedAt.Some?)
      && (n in ms ==>
            ms[n] == NodeInfo(n, node.value.addr.value, node.value.metadata, node.value.joinedAt.value, services))
      && (name in services <==> service.Some? && service.value.port.Some?)
      && (name in services ==> services[name] == ServiceInfo(name, service.value.port.value, service.value.metadata))
  {
    MemberIdsExact(doc, rule, n);
    MembersExact(doc, rule, n);
    if HasPort(doc, rule, n, name) {
      ServiceVisible(doc, rule, n, name);
    }
  }

  /** And what a lookup finds: every node with an entry under the name and an address, dead or not, port or not. */
  lemma LookupExact(doc: Doc, rule: Rule, name: string, e: Endpoint)
    requires Lawful(rule)
    ensures var node, service := NodeEntry(doc, rule, e.nodeId), ServiceEntry(doc, rule, e.nodeId, name);
      e in Lookup(doc, rule, name) <==>
        && service.Some? && node.Some? && node.value.addr == Some(e.addr)
        && e.port == (if service.value.port.Some? then service.value.port.value else 0)
        && e.metadata == service.value.metadata
  {
    if ServiceEntry(doc, rule, e.nodeId, name).Some? {
      ServiceVisible(doc, rule, e.nodeId, name);
    }
  }

  /** A node that `lookup_service` reports while the member list does not know it as such. */
  ghost predicate Phantom(doc: Doc, rule: Rule, n: NodeId, name: string) {
    Offers(doc, rule, n, name) && !(IsMember(doc, rule, n) && HasPort(doc, rule, n, name))
  }

  /** On any document, lookup and scan give the same answer exactly when there is no phantom. */
  lemma LookupMatchesScan(doc: Doc, rule: Rule, name: string)
    requires Lawful(rule)
    ensures Lookup(doc, rule, name) == ScanMembers(doc, rule, name)
            <==> forall n :: !Phantom(doc, rule, n, name)
  {
    var found, scanned := Lookup(doc, rule, name), ScanMembers(doc, rule, name);
    forall n | Offers(doc, rule, n, name)
      ensures OfferedAt(doc, rule, n, name) in found
    {
      ServiceVisible(doc, rule, n, name);
    }
    forall n | IsMember(doc, rule, n) && HasPort(doc, rule, n, name)
      ensures Offers(doc, rule, n, name) && OfferedAt(doc, rule, n, name) in scanned
    {
      MembersExact(doc, rule, n);
      ServiceVisible(doc, rule, n, name);
      assert name in Members(doc, rule)[n].services;
    }
    forall e | e in scanned
      ensures IsMember(doc, rule, e.nodeId) && HasPort(doc, rule, e.nodeId, name)
      ensures e == OfferedAt(doc, rule, e.nodeId, name)
    {
    }
    if n :| Phantom(doc, rule, n, name) {
      assert OfferedAt(doc, rule, n, name) in found;
      assert OfferedAt(doc, rule, n, name) !in scanned;
    } else {
      forall e | e in found ensures e in scanned {
        assert !Phantom(doc, rule, e.nodeId, name);
      }
    }
  }

  /** Such a document exists: a listed node with an entry that has no port. */
  lemma LookupCanDisagree(rule: Rule, id: NodeId, name: string)
    requires Lawful(rule)
    ensures var doc := LocalWrite(AddNode(NewDoc(id), id, "", map[], 0), ServicePath(id, name), Set(DEAD));
      && Lookup(doc, rule, name) != ScanMembers(doc, rule, name)
      && Endpoint(id, "", 0, map[]) in Lookup(doc, rule, name) && id in MemberIds(doc, rule)
  {
    var alive := AddNode(NewDoc(id), id, "", map[], 0);
    var doc := LocalWrite(alive, ServicePath(id, name), Set(DEAD));
    ReadYourWrite(NewDoc(id), rule, NodePath(id), Set(AliveRecord("", map[], 0)));
    ReadYourWrite(alive, rule, ServicePath(id, name), Set(DEAD));
    assert NodePath(id) != ServicePath(id, name);
    assert Phantom(doc, rule, id, name);
    LookupMatchesScan(doc, rule, name);
    LookupExact(doc, rule, name, Endpoint(id, "", 0, map[]));
    ReadersExact(doc, rule, id, name);
  }

  // -- Writing the document -----------------------------------------------------------------------

  function AddNode(doc: Doc, id: NodeId, addr: string, metadata: map<string, string>, now: nat): Doc {
    LocalWrite(doc, NodePath(id), Set(AliveRecord(addr, metadata, now)))
  }

  /** Tombstones the services `names` of node `id`, in that order. */
  function TombstoneServices(doc: Doc, id: NodeId, names: seq<string>): Doc
    decreases |names|
  {
    if names == [] then doc
    else TombstoneServices(LocalWrite(doc, ServicePath(id, names[0]), Set(DEAD)), id, names[1..])
  }

  function TombstoneNode(doc: Doc, id: NodeId): Doc {
    LocalWrite(doc, NodePath(id), Set(DEAD))
  }

  /** `names` enumerates the services of `id` the way `remove_node` finds them, each once, in any order. */
  ghost predicate ServicesToRemove(doc: Doc, rule: Rule, id: NodeId, names: seq<string>) {
    && (forall x :: x in names <==> x in NodeServices(TombstoneNode(doc, id), rule, id))
    && (forall i, j :: 0 <= i < j < |names| ==> names[i] != names[j])
  }

  function RemoveNode(doc: Doc, id: NodeId, names: seq<string>): Doc {
    TombstoneServices(TombstoneNode(doc, id), id, names)
  }

  function RegisterService(doc: Doc, name: string, port: Port, metadata: map<string, string>): Doc {
    LocalWrite(doc, ServicePath(doc.replica, name), Set(ServiceRecord(port, metadata)))
  }

  function UnregisterService(doc: Doc, name: string): Doc {
    LocalWrite(doc, ServicePath(doc.replica, name), Remove)
  }

  lemma {:induction false} TombstoneServicesKeeps(doc: Doc, rule: Rule, id: NodeId, names: seq<string>)
    requires ValidDoc(doc) && Lawful(rule)
    ensures var after := TombstoneServices(doc, id, names);
      && ValidDoc(after) && after.replica == doc.replica && Leq(doc.vv, after.vv)
      && (forall n :: NodeEntry(after, rule, n) == NodeEntry(doc, rule, n))
      && (forall n, x :: ServiceEntry(after, rule, n, x)
            == if n == id && x in names then Some(DEAD) else ServiceEntry(doc, rule, n, x))
    decreases |names|
  {
    if names != [] {
      var next := LocalWrite(doc, ServicePath(id, names[0]), Set(DEAD));
      LocalWriteValid(doc, ServicePath(id, names[0]), Set(DEAD));
      ReadYourWrite(doc, rule, ServicePath(id, names[0]), Set(DEAD));
      TombstoneServicesKeeps(next, rule, id, names[1..]);
      LeqTransitive(doc.vv, next.vv, TombstoneServices(doc, id, names).vv);
    }
  }

  /** Entry by entry, what `remove_node` leaves behind. */
  lemma RemoveNodeEntries(doc: Doc, rule: Rule, id: NodeId, names: seq<string>)
    requires ValidDoc(doc) && Lawful(rule)
    ensures var after := RemoveNode(doc, id, names);
      && ValidDoc(after) && after.replica == doc.replica && Leq(doc.vv, after.vv)
      && At(after.vv, doc.replica) > At(doc.vv, doc.replica)
      && (forall n :: NodeEntry(after, rule, n) == if n == id then Some(DEAD) else NodeEntry(doc, rule, n))
      && (forall n, x :: ServiceEntry(after, rule, n, x)
            == if n == id && x in names then Some(DEAD) else ServiceEntry(doc, rule, n, x))
  {
    var mid, after := TombstoneNode(doc, id), RemoveNode(doc, id, names);
    LocalWriteValid(doc, NodePath(id), Set(DEAD));
    ReadYourWrite(doc, rule, NodePath(id), Set(DEAD));
    TombstoneServicesKeeps(mid, rule, id, names);
    LeqTransitive(doc.vv, mid.vv, after.vv);
    assert At(mid.vv, doc.replica) <= At(after.vv, doc.replica);
  }

  /** Equal node entries give equal member maps, up to one id that is gone from the second document. */
  lemma MemberIdsFromEntries(doc: Doc, after: Doc, rule: Rule, gone: set<NodeId>)
    requires Lawful(rule)
    requires forall n :: n !in gone ==> NodeEntry(after, rule, n) == NodeEntry(doc, rule, n)
    requires forall n :: n in gone ==> !Listed(after, rule, n)
    ensures MemberIds(after, rule) == MemberIds(doc, rule) - gone
  {
    forall n
      ensures n in MemberIds(after, rule) <==> n in MemberIds(doc, rule) && n !in gone
      ensures n in MemberIds(after, rule) ==> MemberIds(after, rule)[n] == MemberIds(doc, rule)[n]
    {
      MemberIdsExact(after, rule, n);
      MemberIdsExact(doc, rule, n);
      assert n !in gone ==> NodeEntry(after, rule, n) == NodeEntry(doc, rule, n);
    }
  }

  /** After `remove_node` the node and all its services are gone, and nobody else's membership changed. */
  lemma RemoveNodeEffect(doc: Doc, rule: Rule, id: NodeId, names: seq<string>)
    requires ValidDoc(doc) && Lawful(rule) && ServicesToRemove(doc, rule, id, names)
    ensures MemberIds(RemoveNode(doc, id, names), rule) == MemberIds(doc, rule) - {id}
    ensures NodeServices(RemoveNode(doc, id, names), rule, id) == map[]
  {
    var mid, after := TombstoneNode(doc, id), RemoveNode(doc, id, names);
    RemoveNodeEntries(doc, rule, id, names);
    MemberIdsFromEntries(doc, after, rule, {id});
    LocalWriteValid(doc, NodePath(id), Set(DEAD));
    ReadYourWrite(doc, rule, NodePath(id), Set(DEAD));
    forall x ensures !HasPort(after, rule, id, x) {
      assert ServiceEntry(after, rule, id, x) == if x in names then Some(DEAD) else ServiceEntry(doc, rule, id, x);
      assert ServiceEntry(mid, rule, id, x) == ServiceEntry(doc, rule, id, x);
      if HasPort(mid, rule, id, x) {
        ServiceVisible(mid, rule, id, x);
        assert x in NodeServices(mid, rule, id);
      }
    }
  }

  lemma NodeEntryUnmoved(doc: Doc, rule: Rule, owner: NodeId, name: string, op: Op, n: NodeId)
    requires ValidDoc(doc) && Lawful(rule)
    ensures NodeEntry(LocalWrite(doc, ServicePath(owner, name), op), rule, n) == NodeEntry(doc, rule, n)
  {
    ReadYourWrite(doc, rule, ServicePath(owner, name), op);
  }

  /** Writing a service path never changes who is a member. */
  lemma ServiceWriteKeepsMembers(doc: Doc, rule: Rule, owner: NodeId, name: string, op: Op)
    requires ValidDoc(doc) && Lawful(rule)
    ensures MemberIds(LocalWrite(doc, ServicePath(owner, name), op), rule) == MemberIds(doc, rule)
  {
    var after := LocalWrite(doc, ServicePath(owner, name), op);
    forall n ensures NodeEntry(after, rule, n) == NodeEntry(doc, rule, n) {
      NodeEntryUnmoved(doc, rule, owner, name, op, n);
    }
    SameEntriesSameIds(doc, after, rule);
  }

  /** A registered service shows with its port and metadata, and no other service of the node changes. */
  lemma RegisterShows(doc: Doc, rule: Rule, name: string, port: Port, metadata: map<string, string>)
    requires ValidDoc(doc) && Lawful(rule)
    ensures NodeServices(RegisterService(doc, name, port, metadata), rule, doc.replica)
         == NodeServices(doc, rule, doc.replica)[name := ServiceInfo(name, port, metadata)]
  {
    var op := Set(ServiceRecord(port, metadata));
    ServicesAfterWrite(doc, rule, name, op);
    WrittenServiceShows(doc, rule, name, port, metadata);
    UpdateAt(NodeServices(doc, rule, doc.replica),
      NodeServices(RegisterService(doc, name, port, metadata), rule, doc.replica), name);
  }

  lemma UpdateAt<K, V>(m: map<K, V>, after: map<K, V>, k: K)
    requires after - {k} == m - {k} && k in after
    ensures after == m[k := after[k]]
  {
    forall x | x != k
      ensures x in after <==> x in m
      ensures x in m ==> after[x] == m[x]
    {
      assert x in after - {k} <==> x in m - {k};
      assert x in m ==> (after - {k})[x] == (m - {k})[x];
    }
  }

  lemma WrittenServiceShows(doc: Doc, rule: Rule, name: string, port: Port, metadata: map<string, string>)
    requires ValidDoc(doc) && Lawful(rule)
    ensures var after := LocalWrite(doc, ServicePath(doc.replica, name), Set(ServiceRecord(port, metadata)));
      var services := NodeServices(after, rule, doc.replica);
      name in services && services[name] == ServiceInfo(name, port, metadata)
  {
    var op := Set(ServiceRecord(port, metadata));
    var after := LocalWrite(doc, ServicePath(doc.replica, name), op);
    assert NextWrite(doc, ServicePath(doc.replica, name), op) in after.writes;
    ReadYourWrite(doc, rule, ServicePath(doc.replica, name), op);
    assert name in ServiceNames(after, doc.replica);
  }

  /** An unregistered service is gone, and no other service of the node changes. */
  lemma UnregisterHides(doc: Doc, rule: Rule, name: string)
    requires ValidDoc(doc) && Lawful(rule)
    ensures NodeServices(UnregisterService(doc, name), rule, doc.replica)
         == NodeServices(doc, rule, doc.replica) - {name}
  {
    ReadYourWrite(doc, rule, ServicePath(doc.replica, name), Remove);
    ServicesAfterWrite(doc, rule, name, Remove);
  }

  lemma ServicesAfterWrite(doc: Doc, rule: Rule, name: string, op: Op)
    requires ValidDoc(doc) && Lawful(rule)
    ensures var after := LocalWrite(doc, ServicePath(doc.replica, name), op);
      NodeServices(after, rule, doc.replica) - {name} == NodeServices(doc, rule, doc.replica) - {name}
  {
    var after := LocalWrite(doc, ServicePath(doc.replica, name), op);
    var m, m' := NodeServices(doc, rule, doc.replica), NodeServices(after, rule, doc.replica);
    forall x | x != name
      ensures x in m' <==> x in m
      ensures x in m ==> m'[x] == m[x]
    {
      OtherServiceKept(doc, rule, name, op, x);
    }
    SameElsewhere(m, m', name);
  }

  lemma SameElsewhere<K, V>(m: map<K, V>, after: map<K, V>, k: K)
    requires forall x :: x != k ==> (x in after <==> x in m)
    requires forall x :: x != k && x in m ==> after[x] == m[x]
    ensures after - {k} == m - {k}
  {
  }

  lemma OtherServiceKept(doc: Doc, rule: Rule, name: string, op: Op, x: string)
    requires ValidDoc(doc) && Lawful(rule) && x != name
    ensures var m, m' := NodeServices(doc, rule, doc.replica),
        NodeServices(LocalWrite(doc, ServicePath(doc.replica, name), op), rule, doc.replica);
      (x in m' <==> x in m) && (x in m ==> m'[x] == m[x])
  {
    var n, after := doc.replica, LocalWrite(doc, ServicePath(doc.replica, name), op);
    OtherNameKept(doc, name, op, x);
    ReadYourWrite(doc, rule, ServicePath(n, name), op);
    assert ServicePath(n, x) != ServicePath(n, name);
    assert ServiceEntry(after, rule, n, x) == ServiceEntry(doc, rule, n, x);
  }

  lemma OtherNameKept(doc: Doc, name: string, op: Op, x: string)
    requires x != name
    ensures x in ServiceNames(LocalWrite(doc, ServicePath(doc.replica, name), op), doc.replica)
      <==> x in ServiceNames(doc, doc.replica)
  {
  }

  /** An added node is a member with its address and metadata, and nobody else's membership changed. */
  lemma AddNodeShows(doc: Doc, rule: Rule, id: NodeId, addr: string, metadata: map<string, string>, now: nat)
    requires ValidDoc(doc) && Lawful(rule)
    ensures var after := AddNode(doc, id, addr, metadata, now);
      && MemberIds(after, rule) == MemberIds(doc, rule)[id := addr]
      && Members(after, rule)
         == Members(doc, rule)[id := NodeInfo(id, addr, metadata, now, NodeServices(doc, rule, id))]
  {
    AddNodeShowsId(doc, rule, id, addr, metadata, now);
    var after := AddNode(doc, id, addr, metadata, now);
    var ms, ms' := Members(doc, rule), Members(after, rule);
    forall n | n != id ensures (n in ms' <==> n in ms) && (n in ms ==> ms'[n] == ms[n]) {
      OtherMemberKept(doc, rule, id, Set(AliveRecord(addr, metadata, now)), n);
    }
    AddedNodeShows(doc, rule, id, addr, metadata, now);
    UpdatedAt(ms, ms', id);
  }

  lemma AddNodeShowsId(doc: Doc, rule: Rule, id: NodeId, addr: string, metadata: map<string, string>, now: nat)
    requires ValidDoc(doc) && Lawful(rule)
    ensures MemberIds(AddNode(doc, id, addr, metadata, now), rule) == MemberIds(doc, rule)[id := addr]
  {
    var after := AddNode(doc, id, addr, metadata, now);
    var ids, ids' := MemberIds(doc, rule), MemberIds(after, rule);
    forall n | n != id ensures (n in ids' <==> n in ids) && (n in ids ==> ids'[n] == ids[n]) {
      OtherMemberKept(doc, rule, id, Set(AliveRecord(addr, metadata, now)), n);
    }
    AddedNodeShows(doc, rule, id, addr, metadata, now);
    UpdatedAt(ids, ids', id);
  }

  lemma UpdatedAt<K, V>(m: map<K, V>, after: map<K, V>, k: K)
    requires forall x :: x != k ==> (x in after <==> x in m) && (x in m ==> after[x] == m[x])
    requires k in after
    ensures after == m[k := after[k]]
  {
  }

  lemma AddedNodeShows(doc: Doc, rule: Rule, id: NodeId, addr: string, metadata: map<string, string>, now: nat)
    requires ValidDoc(doc) && Lawful(rule)
    ensures var after := AddNode(doc, id, addr, metadata, now);
      && id in MemberIds(after, rule) && MemberIds(after, rule)[id] == addr
      && id in Members(after, rule)
      && Members(after, rule)[id] == NodeInfo(id, addr, metadata, now, NodeServices(doc, rule, id))
  {
    var op := Set(AliveRecord(addr, metadata, now));
    var after := AddNode(doc, id, addr, metadata, now);
    ReadYourWrite(doc, rule, NodePath(id), op);
    NodeWriteKeepsServices(doc, rule, id, op, id);
    MemberIdsExact(after, rule, id);
    MembersExact(after, rule, id);
  }

  lemma OtherMemberKept(doc: Doc, rule: Rule, id: NodeId, op: Op, n: NodeId)
    requires ValidDoc(doc) && Lawful(rule) && n != id
    ensures var after := LocalWrite(doc, NodePath(id), op);
      var ids, ids', ms, ms' := MemberIds(doc, rule), MemberIds(after, rule), Members(doc, rule), Members(after, rule);
      && (n in ids' <==> n in ids) && (n in ids ==> ids'[n] == ids[n])
      && (n in ms' <==> n in ms) && (n in ms ==> ms'[n] == ms[n])
  {
    var after := LocalWrite(doc, NodePath(id), op);
    ReadYourWrite(doc, rule, NodePath(id), op);
    assert NodePath(n) != NodePath(id);
    assert NodeEntry(after, rule, n) == NodeEntry(doc, rule, n);
    NodeWriteKeepsServices(doc, rule, id, op, n);
    MemberIdsExact(doc, rule, n);
    MemberIdsExact(after, rule, n);
    MembersExact(doc, rule, n);
    MembersExact(after, rule, n);
  }

  /** Writing a node path leaves every service alone. */
  lemma NodeWriteKeepsServices(doc: Doc, rule: Rule, id: NodeId, op: Op, n: NodeId)
    requires ValidDoc(doc) && Lawful(rule)
    ensures NodeServices(LocalWrite(doc, NodePath(id), op), rule, n) == NodeServices(doc, rule, n)
  {
    var after := LocalWrite(doc, NodePath(id), op);
    ReadYourWrite(doc, rule, NodePath(id), op);
    assert ServiceNames(after, n) == ServiceNames(doc, n);
    forall x ensures ServiceEntry(after, rule, n, x) == ServiceEntry(doc, rule, n, x) {
      assert ServicePath(n, x) != NodePath(id);
    }
  }

  /** A daemon that has just started lists itself, with what it was started with, and nobody else. */
  lemma StartListsSelf(rule: Rule, id: NodeId, addr: string, metadata: map<string, string>, now: nat)
    requires Lawful(rule)
    ensures Members(AddNode(NewDoc(id), id, addr, metadata, now), rule)
         == map[id := NodeInfo(id, addr, metadata, now, map[])]
    ensures MemberIds(AddNode(NewDoc(id), id, addr, metadata, now), rule) == map[id := addr]
  {
    var doc := AddNode(NewDoc(id), id, addr, metadata, now);
    ReadYourWrite(NewDoc(id), rule, NodePath(id), Set(AliveRecord(addr, metadata, now)));
    assert doc.writes == {NextWrite(NewDoc(id), NodePath(id), Set(AliveRecord(addr, metadata, now)))};
    assert NodeIds(doc) == {id};
    assert NodeServices(doc, rule, id) == map[];
  }

  lemma SameEntriesSameIds(doc: Doc, after: Doc, rule: Rule)
    requires Lawful(rule) && forall n :: NodeEntry(after, rule, n) == NodeEntry(doc, rule, n)
    ensures MemberIds(after, rule) == MemberIds(doc, rule)
  {
    MemberIdsFromEntries(doc, after, rule, {});
  }
}
