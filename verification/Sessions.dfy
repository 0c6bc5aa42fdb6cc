/**
 One daemon with its peer tasks, as a state machine. A step is one critical section of one task, or
 what a peer task does between two of them, so every interleaving of peer tasks is a sequence of steps.
 */
module Sessions {
  import opened Causality
  import opened Document
  import opened Membership
  import opened Daemon

  /** Where a registered peer task stands. */
  datatype Phase =
    | Acking(vv: VersionVector)   // accepted: the acknowledgement is still to be written
    | Opening                     // the initial full delta is still to be read
    | Writing(delta: Delta, senderVv: VersionVector, initial: bool) // a sync was read from the document
    | Looping                     // in the select loop
    | Woken                       // took a wake-up token, has not read the document yet
    | Ended                       // the loop is over, cleanup is still to run
    | Cleaned                     // cleanup has run
    | Leaked                      // a write before the loop failed: gone without cleanup

  /** `sent` is the vector of the last sync it wrote. */
  datatype Task = Task(remote: NodeId, addr: string, phase: Phase, sent: VersionVector)

  /**
   The last three fields are history: the handles dropped by leave commands, the cleanups that found no
   handle, and this node's own counter after the last removal it announced.
   */
  datatype Node = Node(
    shared: Shared, tasks: map<TaskId, Task>, left: multiset<NodeId>, stray: multiset<NodeId>, removal: nat)

  datatype Step =
    | Accept(task: TaskId, remote: NodeId, addr: string)
    | Adopt(task: TaskId, remote: NodeId, addr: string, remoteVv: VersionVector)
    | WriteAck(task: TaskId)
    | ReadFull(task: TaskId)
    | WriteSync(task: TaskId)
    | Fail(task: TaskId)
    | Tick(remote: NodeId)
    | Take(task: TaskId)
    | ReadDelta(task: TaskId)
    | Merge(task: TaskId, delta: Delta, senderVv: VersionVector, changes: seq<MembershipChange>)
    | Exit(task: TaskId)
    | Finish(task: TaskId, names: seq<string>)
    | LeaveAddr(addr: string)
    | AddService(name: string, port: Port, metadata: map<string, string>)
    | DropService(name: string)
    | Stop(names: seq<string>)

  predicate BeforeLoop(p: Phase) {
    p.Acking? || p.Opening? || (p.Writing? && p.initial)
  }

  predicate InLoop(p: Phase) {
    p.Looping? || (p.Writing? && !p.initial)
  }

  /** When a step can be taken. */
  ghost predicate Can(node: Node, rule: Rule, step: Step) {
    match step
    case Accept(t, remote, _) => t !in node.tasks && remote !in node.shared.peers
    case Adopt(t, remote, _, _) => t !in node.tasks && remote !in node.shared.peers
    case WriteAck(t) => t in node.tasks && node.tasks[t].phase.Acking?
    case ReadFull(t) => t in node.tasks && node.tasks[t].phase.Opening?
    case WriteSync(t) => t in node.tasks && node.tasks[t].phase.Writing?
    case Fail(t) => t in node.tasks && BeforeLoop(node.tasks[t].phase)
    case Tick(_) => true
    case Take(t) => t in node.tasks && node.tasks[t].phase.Looping? && t in node.shared.tokens
    case ReadDelta(t) => t in node.tasks && node.tasks[t].phase.Woken?
    case Merge(t, delta, _, changes) =>
      && t in node.tasks && node.tasks[t].phase.Looping?
      && IsDiff(MemberIds(node.shared.doc, rule), MemberIds(MergeDelta(node.shared.doc, delta), rule), changes)
    case Exit(t) => t in node.tasks && InLoop(node.tasks[t].phase)
    case Finish(t, names) =>
      && t in node.tasks && node.tasks[t].phase.Ended?
      && ServicesToRemove(node.shared.doc, rule, node.tasks[t].remote, names)
    case LeaveAddr(_) => true
    case AddService(_, _, _) => true
    case DropService(_) => true
    case Stop(names) => ServicesToRemove(node.shared.doc, rule, node.shared.doc.replica, names)
  }

  function SetPhase(node: Node, t: TaskId, phase: Phase): Node
    requires t in node.tasks
  {
    node.(tasks := node.tasks[t := node.tasks[t].(phase := phase)])
  }

  function OwnCounter(sh: Shared): nat {
    At(sh.doc.vv, sh.doc.replica)
  }

  function ReadFor(node: Node, t: TaskId): Phase
    requires t in node.tasks
  {
    var sh, remote := node.shared, node.tasks[t].remote;
    if remote in sh.peers then Writing(DeltaSince(sh.doc, sh.peers[remote].lastVv), sh.doc.vv, false)
    else Looping
  }

  function DoFinish(node: Node, t: TaskId, names: seq<string>): Node
    requires t in node.tasks
  {
    var task := node.tasks[t];
    var sh := CleanUp(node.shared, task.remote, task.addr, names);
    SetPhase(node, t, Cleaned).(
      shared := sh, removal := OwnCounter(sh),
      stray := if task.remote in node.shared.peers then node.stray else node.stray + multiset{task.remote})
  }

  ghost function Do(node: Node, rule: Rule, step: Step): Node
    requires Can(node, rule, step)
  {
    var sh := node.shared;
    match step
    case Accept(t, remote, addr) =>
      node.(shared := Register(sh, remote, addr, EMPTY, t),
            tasks := node.tasks[t := Task(remote, addr, Acking(sh.doc.vv), EMPTY)])
    case Adopt(t, remote, addr, remoteVv) =>
      node.(shared := Register(sh, remote, addr, remoteVv, t),
            tasks := node.tasks[t := Task(remote, addr, Opening, EMPTY)])
    case WriteAck(t) => SetPhase(node, t, Opening)
    case ReadFull(t) => SetPhase(node, t, Writing(DeltaSince(sh.doc, EMPTY), sh.doc.vv, true))
    case WriteSync(t) =>
      node.(tasks := node.tasks[t := node.tasks[t].(phase := Looping, sent := node.tasks[t].phase.senderVv)])
    case Fail(t) => SetPhase(node, t, Leaked)
    case Tick(remote) => node.(shared := SignalOne(sh, remote))
    case Take(t) => SetPhase(node, t, Woken).(shared := sh.(tokens := sh.tokens - {t}))
    case ReadDelta(t) => SetPhase(node, t, ReadFor(node, t))
    case Merge(t, delta, senderVv, changes) =>
      node.(shared := HandleSync(sh, node.tasks[t].remote, delta, senderVv, changes))
    case Exit(t) => SetPhase(node, t, Ended)
    case Finish(t, names) => DoFinish(node, t, names)
    case LeaveAddr(addr) =>
      node.(shared := Leave(sh, addr), left := node.left + multiset(PeersAt(sh.peers, addr)))
    case AddService(name, port, metadata) =>
      node.(shared := sh.(doc := RegisterService(sh.doc, name, port, metadata)))
    case DropService(name) =>
      node.(shared := sh.(doc := UnregisterService(sh.doc, name)))
    case Stop(names) =>
      node.(shared := RemoveSelf(sh, names), removal := OwnCounter(RemoveSelf(sh, names)))
  }

  /** A daemon that has just started: it has written its own node entry and nothing else. */
  function StartNode(id: NodeId, addr: string, metadata: map<string, string>, now: nat): Node {
    Node(Shared(AddNode(NewDoc(id), id, addr, metadata, now), map[], {}, []), map[], multiset{}, multiset{}, 0)
  }

  // -- Counting sessions --------------------------------------------------------------------------

  /** The registered sessions with `n` whose cleanup has not run. */
  function LiveTasks(node: Node, n: NodeId): set<TaskId> {
    set t | t in node.tasks && node.tasks[t].remote == n && !node.tasks[t].phase.Cleaned?
  }

  function Present(node: Node, n: NodeId): nat {
    if n in node.shared.peers then 1 else 0
  }

  /** Sessions and handles balance, per remote node. */
  ghost predicate Balanced(node: Node, n: NodeId) {
    |LiveTasks(node, n)| + node.stray[n] == Present(node, n) + node.left[n]
  }

  /** Every handle belongs to a session with that node whose cleanup has not run. */
  ghost predicate HandlesOwned(node: Node) {
    forall n :: n in node.shared.peers ==> node.shared.peers[n].task in LiveTasks(node, n)
  }

  ghost predicate Counted(node: Node) {
    HandlesOwned(node) && forall n :: Balanced(node, n)
  }

  lemma SameTasksBalanced(node: Node, after: Node)
    requires Counted(node)
    requires after.shared.peers.Keys == node.shared.peers.Keys
    requires forall n :: n in node.shared.peers ==> after.shared.peers[n].task == node.shared.peers[n].task
    requires after.left == node.left && after.stray == node.stray
    requires forall n :: LiveTasks(after, n) == LiveTasks(node, n)
    ensures Counted(after)
  {
    forall n ensures Balanced(after, n) {
      assert Balanced(node, n);
    }
  }

  lemma PhaseKeepsTasks(node: Node, t: TaskId, task: Task)
    requires t in node.tasks && task.remote == node.tasks[t].remote
    requires !node.tasks[t].phase.Cleaned? && !task.phase.Cleaned?
    ensures forall n :: LiveTasks(node.(tasks := node.tasks[t := task]), n) == LiveTasks(node, n)
  {
  }

  lemma RegisterCounted(node: Node, t: TaskId, task: Task, lastVv: VersionVector)
    requires Counted(node) && t !in node.tasks && task.remote !in node.shared.peers && !task.phase.Cleaned?
    ensures Counted(node.(shared := Register(node.shared, task.remote, task.addr, lastVv, t),
                          tasks := node.tasks[t := task]))
  {
    var after := node.(shared := Register(node.shared, task.remote, task.addr, lastVv, t),
                       tasks := node.tasks[t := task]);
    forall n ensures Balanced(after, n) {
      assert Balanced(node, n);
      assert LiveTasks(after, n) == if n == task.remote then LiveTasks(node, n) + {t} else LiveTasks(node, n);
    }
    forall n | n in after.shared.peers ensures after.shared.peers[n].task in LiveTasks(after, n) {
      assert n != task.remote ==> node.shared.peers[n].task in LiveTasks(node, n);
    }
  }

  lemma FinishCounted(node: Node, t: TaskId, names: seq<string>)
    requires Counted(node) && t in node.tasks && node.tasks[t].phase.Ended?
    ensures Counted(DoFinish(node, t, names))
  {
    var after := DoFinish(node, t, names);
    var remote := node.tasks[t].remote;
    forall n ensures Balanced(after, n) {
      assert Balanced(node, n);
      assert t in LiveTasks(node, remote);
      assert LiveTasks(after, n) == if n == remote then LiveTasks(node, n) - {t} else LiveTasks(node, n);
    }
    forall n | n in after.shared.peers ensures after.shared.peers[n].task in LiveTasks(after, n) {
      assert node.shared.peers[n].task in LiveTasks(node, n);
    }
  }

  lemma LeaveCounted(node: Node, rule: Rule, addr: string)
    requires Counted(node)
    ensures Counted(Do(node, rule, LeaveAddr(addr)))
  {
    var after := Do(node, rule, LeaveAddr(addr));
    forall n ensures Balanced(after, n) {
      assert Balanced(node, n);
      assert LiveTasks(after, n) == LiveTasks(node, n);
    }
    forall n | n in after.shared.peers ensures after.shared.peers[n].task in LiveTasks(after, n) {
      assert node.shared.peers[n].task in LiveTasks(node, n);
      assert LiveTasks(after, n) == LiveTasks(node, n);
    }
  }

  /** Every step keeps the balance. */
  lemma StepCounted(node: Node, rule: Rule, step: Step)
    requires Counted(node) && Can(node, rule, step)
    ensures Counted(Do(node, rule, step))
  {
    var after := Do(node, rule, step);
    match step
    case Accept(t, remote, addr) => RegisterCounted(node, t, after.tasks[t], EMPTY);
    case Adopt(t, remote, addr, remoteVv) => RegisterCounted(node, t, after.tasks[t], remoteVv);
    case Finish(t, names) => FinishCounted(node, t, names);
    case LeaveAddr(addr) => LeaveCounted(node, rule, addr);
    case WriteAck(t) => PhaseKeepsTasks(node, t, after.tasks[t]); SameTasksBalanced(node, after);
    case ReadFull(t) => PhaseKeepsTasks(node, t, after.tasks[t]); SameTasksBalanced(node, after);
    case WriteSync(t) => PhaseKeepsTasks(node, t, after.tasks[t]); SameTasksBalanced(node, after);
    case Fail(t) => PhaseKeepsTasks(node, t, after.tasks[t]); SameTasksBalanced(node, after);
    case Take(t) =>
      PhaseKeepsTasks(node, t, after.tasks[t]);
      SameTasksBalanced(node, node.(tasks := after.tasks));
      SameTasksBalanced(node.(tasks := after.tasks), after);
    case ReadDelta(t) => PhaseKeepsTasks(node, t, after.tasks[t]); SameTasksBalanced(node, after);
    case Exit(t) => PhaseKeepsTasks(node, t, after.tasks[t]); SameTasksBalanced(node, after);
    case Tick(_) => SameTasksBalanced(node, after);
    case Merge(_, _, _, _) => SameTasksBalanced(node, after);
    case AddService(_, _, _) => SameTasksBalanced(node, after);
    case DropService(_) => SameTasksBalanced(node, after);
    case Stop(_) => SameTasksBalanced(node, after);
  }

  /** Where no leave ever dropped a handle of `n`, the handle and the one live session stand for each other. */
  lemma SessionExact(node: Node, n: NodeId)
    requires Counted(node) && node.left[n] == 0
    ensures |LiveTasks(node, n)| == Present(node, n) && node.stray[n] == 0
    ensures n in node.shared.peers ==> LiveTasks(node, n) == {node.shared.peers[n].task}
  {
    assert Balanced(node, n);
    if n in node.shared.peers {
      var t := node.shared.peers[n].task;
      assert t in LiveTasks(node, n);
      assert |LiveTasks(node, n) - {t}| == |LiveTasks(node, n)| - 1;
      assert LiveTasks(node, n) - {t} == {};
    }
  }

  // -- Leaked sessions ----------------------------------------------------------------------------

  /** A handle goes with a cleanup for its node or a leave command for its address, and with nothing else. */
  lemma HandleDropped(node: Node, rule: Rule, step: Step, n: NodeId)
    requires Can(node, rule, step) && n in node.shared.peers
    ensures var after := Do(node, rule, step);
      && (n !in after.shared.peers
          <==> (step.Finish? && node.tasks[step.task].remote == n)
               || (step.LeaveAddr? && step.addr == node.shared.peers[n].addr))
      && (n in after.shared.peers ==>
            && after.shared.peers[n].addr == node.shared.peers[n].addr
            && after.shared.peers[n].task == node.shared.peers[n].task)
  {
  }

  /** The peer's handle belongs to a leaked session, and no other session with it is left that could clean up. */
  predicate ShutOut(node: Node, t: TaskId) {
    && Owns(node, t) && node.tasks[t].phase.Leaked?
    && forall u :: u in LiveTasks(node, node.tasks[t].remote) ==> node.tasks[u].phase.Leaked?
  }

  /** The address under which a leave command would find the peer of `t`. */
  function AddrOf(node: Node, t: TaskId): string
    requires Owns(node, t)
  {
    node.shared.peers[node.tasks[t].remote].addr
  }

  /** A leaked session blocks its peer through every step but a leave command for that peer's address. */
  lemma LeakStays(node: Node, rule: Rule, step: Step, t: TaskId)
    requires Can(node, rule, step) && ShutOut(node, t)
    ensures var n, after := node.tasks[t].remote, Do(node, rule, step);
      && !(step.Accept? && step.remote == n) && !(step.Adopt? && step.remote == n)
      && (step.LeaveAddr? && step.addr == AddrOf(node, t) <==> n !in after.shared.peers)
      && (n in after.shared.peers ==>
            ShutOut(after, t) && after.tasks[t].remote == n && AddrOf(after, t) == AddrOf(node, t))
  {
    var n := node.tasks[t].remote;
    HandleDropped(node, rule, step, n);
    assert step.Finish? ==> step.task in LiveTasks(node, node.tasks[step.task].remote);
  }

  // -- Wake-ups -----------------------------------------------------------------------------------

  /** The peer task whose wake-up channel the handle of its peer feeds. */
  predicate Owns(node: Node, t: TaskId) {
    && t in node.tasks && node.tasks[t].remote in node.shared.peers
    && node.shared.peers[node.tasks[t].remote].task == t
  }

  /** A peer task has announced this node's last removal, or something is on its way to make it do so. */
  predicate Announced(node: Node, t: TaskId)
    requires t in node.tasks
  {
    var task, self := node.tasks[t], node.shared.doc.replica;
    match task.phase
    case Acking(_) => true
    case Opening => true
    case Woken => true
    case Writing(_, senderVv, _) => t in node.shared.tokens || node.removal <= At(senderVv, self)
    case Looping => t in node.shared.tokens || node.removal <= At(task.sent, self)
    case Ended => true
    case Cleaned => true
    case Leaked => true
  }

  ghost predicate Awake(node: Node) {
    && node.removal <= OwnCounter(node.shared)
    && forall t :: Owns(node, t) ==> Announced(node, t)
  }

  lemma RemovalAdvances(doc: Doc, rule: Rule, id: NodeId, names: seq<string>)
    requires ValidDoc(doc) && Lawful(rule)
    ensures RemoveNode(doc, id, names).replica == doc.replica && Leq(doc.vv, RemoveNode(doc, id, names).vv)
  {
    RemoveNodeEntries(doc, rule, id, names);
  }

  /** Every step keeps the wake-up property, whether or not channels are full and handles are dropped. */
  lemma StepAwake(node: Node, rule: Rule, step: Step)
    requires Awake(node) && Counted(node) && Can(node, rule, step) && Lawful(rule) && ValidDoc(node.shared.doc)
    ensures Awake(Do(node, rule, step))
  {
    var after := Do(node, rule, step);
    var self := node.shared.doc.replica;
    if step.Finish? {
      RemovalAdvances(node.shared.doc, rule, node.tasks[step.task].remote, step.names);
    } else if step.Stop? {
      RemovalAdvances(node.shared.doc, rule, self, step.names);
    } else {
      assert At(node.shared.doc.vv, self) <= At(after.shared.doc.vv, self);
      forall t | Owns(after, t) ensures Announced(after, t) {
        if t in node.tasks {
          assert Owns(node, t);
        }
      }
    }
  }

  /** A cleanup fills the channel of exactly those tasks whose handle is still in place. */
  lemma FinishWakes(node: Node, rule: Rule, t: TaskId, names: seq<string>, u: TaskId)
    requires Counted(node) && Can(node, rule, Finish(t, names)) && u in node.tasks && u != t
    ensures var after := Do(node, rule, Finish(t, names));
      u in after.shared.tokens
      <==> u in node.shared.tokens || (Owns(node, u) && node.tasks[u].remote != node.tasks[t].remote)
  {
    var after := Do(node, rule, Finish(t, names));
    if u in after.shared.tokens && u !in node.shared.tokens {
      var n :| n in after.shared.peers && after.shared.peers[n].task == u;
      assert u in LiveTasks(node, n);
    }
    if Owns(node, u) && node.tasks[u].remote != node.tasks[t].remote {
      assert node.tasks[u].remote in after.shared.peers;
    }
  }

  /**
   Exactly which sessions in their loops a cleanup reaches: those with a token, and those that own the handle of
   another peer than the one that is cleaned up. Any other one misses the removal.
   */
  lemma FinishAnnounces(node: Node, rule: Rule, t: TaskId, names: seq<string>, u: TaskId)
    requires Counted(node) && Can(node, rule, Finish(t, names)) && Lawful(rule) && ValidDoc(node.shared.doc)
    requires u in node.tasks && node.tasks[u].phase.Looping?
    requires At(node.tasks[u].sent, node.shared.doc.replica) <= OwnCounter(node.shared)
    ensures Announced(Do(node, rule, Finish(t, names)), u)
      <==> u in node.shared.tokens || (Owns(node, u) && node.tasks[u].remote != node.tasks[t].remote)
  {
    FinishWakes(node, rule, t, names, u);
    RemoveNodeEntries(node.shared.doc, rule, node.tasks[t].remote, names);
  }

  /** No lost wake-up: with no leave for its peer, every live session has announced the last removal or will. */
  lemma NoLostWakeup(node: Node, t: TaskId)
    requires Awake(node) && Counted(node) && t in node.tasks
    requires node.left[node.tasks[t].remote] == 0 && !node.tasks[t].phase.Cleaned?
    ensures Owns(node, t) && Announced(node, t)
  {
    var n := node.tasks[t].remote;
    SessionExact(node, n);
    assert t in LiveTasks(node, n);
    if n !in node.shared.peers {
      assert false;
    }
  }

  // -- Events -------------------------------------------------------------------------------------

  /** Except at shutdown, what a step broadcasts is what it did to the member ids. */
  lemma StepEvents(node: Node, rule: Rule, step: Step)
    requires ValidDoc(node.shared.doc) && Can(node, rule, step) && Lawful(rule) && !step.Stop?
    ensures node.shared.events <= Do(node, rule, step).shared.events
    ensures Replay(MemberIds(node.shared.doc, rule).Keys,
                   Do(node, rule, step).shared.events[|node.shared.events|..])
         == MemberIds(Do(node, rule, step).shared.doc, rule).Keys
  {
    var doc, after := node.shared.doc, Do(node, rule, step);
    var before := MemberIds(doc, rule);
    var news := after.shared.events[|node.shared.events|..];
    match step
    case Merge(_, delta, _, changes) =>
      assert news == changes;
      ReplayDiff(before, MemberIds(after.shared.doc, rule), changes);
    case Finish(t, names) =>
      var task := node.tasks[t];
      assert news == [MembershipChange(NodeLeft, task.remote, task.addr)];
      RemoveNodeEffect(doc, rule, task.remote, names);
      assert Replay(before.Keys, news) == Replay(before.Keys - {task.remote}, []);
    case AddService(name, port, metadata) =>
      ServiceWriteKeepsMembers(doc, rule, doc.replica, name, Set(ServiceRecord(port, metadata)));
    case DropService(name) => ServiceWriteKeepsMembers(doc, rule, doc.replica, name, Remove);
    case _ =>
      assert news == [];
  }
}
