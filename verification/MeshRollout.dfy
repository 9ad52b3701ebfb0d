/**
 The coordinator's half of the mesh rollout and the protocol as a whole: a two-phase commit over
 an unreliable network, with a durable decision that a later recover run carries out.

 The coordinator writes the decision "roll back" before it sends anything, prepares every member,
 commits the other members and then the master, flips the durable decision to "finalize" and
 finishes. A request that gets no answer stays in the network and may execute once, at any later
 time, even after its transaction has ended. Coordinator and members crash anywhere.
 */
module MeshRollout {
  import opened Wrappers
  import opened MeshAgent

  datatype Decision = ToRollback | ToFinalize

  /** The coordinator's durable log entry. */
  datatype Rollout = Rollout(tx: Tx, members: seq<Member>, decision: Decision)

  datatype Stage = Preparing | CommittingAll | Deciding | Finishing(decision: Decision)

  /** The coordinator process: what it still has to send and which request it waits for. */
  datatype Coordinator =
    | Idle
    | Busy(tx: Tx, members: seq<Member>, master: Member, plans: map<Member, Plan>,
           stage: Stage, todo: seq<Member>, waiting: Option<nat>, failed: bool)

  datatype Message = Message(serial: nat, op: Op, tx: Tx, target: Member, plan: Option<Plan>)

  /** A finished transaction on one member; never forgotten, although the member keeps only its last. */
  datatype Entry = Entry(member: Member, tx: Tx, outcome: Outcome)

  /**
   The first six fields are the system, the others record its history. A transaction is betrayed when
   its finalize decision is stored by a save that reports an error.
   */
  datatype World = World(
    cluster: nat,
    nodes: map<Member, Node>,
    durable: Option<Rollout>,
    coord: Coordinator,
    net: set<Message>,
    nextSerial: nat,
    members: map<Tx, seq<Member>>,
    masters: map<Tx, Member>,
    prepareSent: set<(Tx, Member)>,
    commitSent: set<Tx>,
    rollbackSent: set<Tx>,
    finalizeSent: set<Tx>,
    decided: set<Tx>,
    betrayed: set<Tx>,
    acked: set<(Tx, Member)>,
    closed: set<Tx>,
    log: set<Entry>)

  datatype Step =
    | Start(tx: Tx, members: seq<Member>, master: Member, plans: map<Member, Plan>, save: Save)
    | Send
    | Deliver(message: Message, env: Env, heard: bool)
    | Timeout
    | Advance
    | Decide(save: Save)
    | Close(save: Save)
    | CrashCoordinator
    | Recover(master: Member)

  // ------------------------------------------------------------------------------------------
  // Steps
  // ------------------------------------------------------------------------------------------

  /** Members other than the master, last one first. */
  function SlavesReversed(members: seq<Member>, master: Member): seq<Member> {
    if members == [] then []
    else SlavesReversed(members[1..], master) + (if members[0] == master then [] else [members[0]])
  }

  /** The master is committed last. */
  function CommitOrder(members: seq<Member>, master: Member): seq<Member> {
    SlavesReversed(members, master) + [master]
  }

  predicate Distinct(s: seq<Member>) {
    forall i, k :: 0 <= i < k < |s| ==> s[i] != s[k]
  }

  function StageOp(stage: Stage): Op
    requires !stage.Deciding?
  {
    match stage
    case Preparing => Prepare
    case CommittingAll => Commit
    case Finishing(d) => if d.ToRollback? then Rollback else Finalize
  }

  predicate Enabled(w: World, step: Step) {
    match step
    case Start(tx, members, master, plans, _) =>
      && w.coord.Idle? && w.durable.None?
      && tx != NO_TX && tx !in w.members && (forall m :: m in w.nodes ==> w.nodes[m].journal.lastTx != tx)
      && Distinct(members) && master in members
      && (forall m :: m in members ==> m in w.nodes && m in plans)
    case Send =>
      && w.coord.Busy? && w.coord.waiting.None? && w.coord.todo != [] && !w.coord.stage.Deciding?
      && (w.coord.stage.Preparing? ==> w.coord.todo[0] in w.coord.plans)
    case Deliver(message, _, _) => message in w.net && message.target in w.nodes
    case Timeout => w.coord.Busy? && w.coord.waiting.Some? && w.coord.todo != []
    case Advance =>
      w.coord.Busy? && w.coord.waiting.None? && w.coord.todo == [] && (w.coord.stage.Preparing? || w.coord.stage.CommittingAll?)
    case Decide(_) => w.coord.Busy? && w.coord.stage.Deciding? && w.durable.Some?
    case Close(_) => w.coord.Busy? && w.coord.stage.Finishing? && w.coord.todo == [] && w.coord.waiting.None?
    case CrashCoordinator => true
    case Recover(master) => w.coord.Idle? && w.durable.Some? && master in w.durable.value.members
  }

  /** The coordinator gives up on the request it waits for. */
  function Fail(c: Coordinator): Coordinator
    requires c.Busy? && c.todo != []
  {
    if c.stage.Finishing? then c.(failed := true, todo := c.todo[1..], waiting := None)
    else c.(stage := Finishing(ToRollback), todo := c.members, waiting := None, failed := false)
  }

  function AfterReply(c: Coordinator, message: Message, reply: Reply, heard: bool): Coordinator {
    if heard && c.Busy? && c.todo != [] && c.waiting == Some(message.serial) && !reply.Lost? then
      if reply.Done? then c.(todo := c.todo[1..], waiting := None) else Fail(c)
    else c
  }

  predicate Accepted(c: Coordinator, message: Message, reply: Reply, heard: bool) {
    heard && c.Busy? && c.todo != [] && c.waiting == Some(message.serial) && reply.Done?
  }

  function RequestOf(cluster: nat, message: Message): Request {
    Request(cluster, message.target, message.op, message.tx, message.plan)
  }

  function AfterStart(w: World, tx: Tx, members: seq<Member>, master: Member, plans: map<Member, Plan>, save: Save): World {
    if TookEffect(save) then
      w.(durable := Some(Rollout(tx, members, ToRollback)),
      members := w.members[tx := members],
      masters := w.masters[tx := master],
      coord := if save.Saved? then Busy(tx, members, master, plans, Preparing, members, None, false) else Idle)
    else w
  }

  function AfterSend(w: World): World
    requires Enabled(w, Send)
  {
    var c := w.coord;
    var op, to := StageOp(c.stage), c.todo[0];
    var message := Message(w.nextSerial, op, c.tx, to, if op == Prepare then Some(c.plans[to]) else None);
    w.(coord := c.(waiting := Some(w.nextSerial)),
    net := w.net + {message},
    nextSerial := w.nextSerial + 1,
    prepareSent := if op == Prepare then w.prepareSent + {(c.tx, to)} else w.prepareSent,
    commitSent := if op == Commit then w.commitSent + {c.tx} else w.commitSent,
    rollbackSent := if op == Rollback then w.rollbackSent + {c.tx} else w.rollbackSent,
    finalizeSent := if op == Finalize then w.finalizeSent + {c.tx} else w.finalizeSent)
  }

  function AfterDeliver(w: World, message: Message, env: Env, heard: bool): World
    requires message.target in w.nodes
  {
    var n := w.nodes[message.target];
    var (n', reply) := Execute(n, RequestOf(w.cluster, message), env);
    w.(net := w.net - {message},
    nodes := w.nodes[message.target := n'],
    coord := AfterReply(w.coord, message, reply, heard),
    acked := if Accepted(w.coord, message, reply, heard) && message.op == Rollback
             then w.acked + {(message.tx, message.target)} else w.acked,
    log := if n.journal.tx != NO_TX && n'.journal.tx == NO_TX
           then w.log + {Entry(message.target, n.journal.tx, n'.journal.lastOutcome)} else w.log)
  }

  function AfterDecide(w: World, save: Save): World
    requires Enabled(w, Decide(save))
  {
    var c := w.coord;
    var w' := if TookEffect(save)
              then w.(durable := Some(w.durable.value.(decision := ToFinalize)), decided := w.decided + {c.tx},
                      betrayed := w.betrayed + if save == SavedThenError then {c.tx} else {})
              else w;
    match save
    case Saved => w'.(coord := c.(stage := Finishing(ToFinalize), todo := c.members, failed := false))
    case SavedThenError => w'.(coord := c.(stage := Finishing(ToRollback), todo := c.members, failed := false))
    case Unsaved => w'.(coord := c.(stage := Finishing(ToRollback), todo := c.members, failed := false))
    case CrashBefore => w'.(coord := Idle)
    case CrashAfter => w'.(coord := Idle)
  }

  function AfterClose(w: World, save: Save): World
    requires Enabled(w, Close(save))
  {
    if w.coord.failed || !TookEffect(save) then w.(coord := Idle)
    else w.(coord := Idle, durable := None, closed := w.closed + {w.coord.tx})
  }

  function Next(w: World, step: Step): World
    requires Enabled(w, step)
  {
    match step
    case Start(tx, members, master, plans, save) => AfterStart(w, tx, members, master, plans, save)
    case Send => AfterSend(w)
    case Deliver(message, env, heard) => AfterDeliver(w, message, env, heard)
    case Timeout => w.(coord := Fail(w.coord))
    case Advance =>
      w.(coord := if w.coord.stage.Preparing?
                  then w.coord.(stage := CommittingAll, todo := CommitOrder(w.coord.members, w.coord.master))
                  else w.coord.(stage := Deciding))
    case Decide(save) => AfterDecide(w, save)
    case Close(save) => AfterClose(w, save)
    case CrashCoordinator => w.(coord := Idle)
    case Recover(master) =>
      var r := w.durable.value;
      w.(coord := Busy(r.tx, r.members, master, map[], Finishing(r.decision), r.members, None, false))
  }

  /** A new cluster: members that run their active plans, no rollout and an empty network. */
  predicate Initial(w: World) {
    && (forall m :: m in w.nodes ==>
      && w.nodes[m].id.cluster == w.cluster && w.nodes[m].id.member == m
      && JournalInv(w.nodes[m].journal) && w.nodes[m].journal.tx == NO_TX
      && w.nodes[m].running == Runs(w.nodes[m].journal.active))
    && w.durable.None? && w.coord.Idle? && w.net == {} && w.members == map[] && w.masters == map[]
    && w.prepareSent == {} && w.commitSent == {} && w.rollbackSent == {} && w.finalizeSent == {}
    && w.decided == {} && w.betrayed == {} && w.acked == {} && w.closed == {} && w.log == {}
  }

  /**
   The save of the finalize decision tells the truth when it reports an error. The program can
   break this: releasing the state lock may fail after the decision is on disk.
   */
  predicate Honest(step: Step) {
    step != Decide(SavedThenError)
  }

  /** `steps` is a run from `w`. */
  predicate Runnable(w: World, steps: seq<Step>)
    decreases |steps|
  {
    steps != [] ==> Enabled(w, steps[0]) && Runnable(Next(w, steps[0]), steps[1..])
  }

  function RunWorld(w: World, steps: seq<Step>): World
    requires Runnable(w, steps)
    decreases |steps|
  {
    if steps == [] then w else RunWorld(Next(w, steps[0]), steps[1..])
  }

  lemma {:induction false} RunOn(w: World, steps: seq<Step>, more: seq<Step>)
    requires Runnable(w, steps) && Runnable(RunWorld(w, steps), more)
    ensures Runnable(w, steps + more)
    ensures RunWorld(w, steps + more) == RunWorld(RunWorld(w, steps), more)
    decreases |steps|
  {
    if steps == [] {
      assert steps + more == more;
    } else {
      assert (steps + more)[1..] == steps[1..] + more;
      RunOn(Next(w, steps[0]), steps[1..], more);
    }
  }

  lemma OneStep(w: World, step: Step)
    requires Enabled(w, step)
    ensures Runnable(w, [step]) && RunWorld(w, [step]) == Next(w, step)
  {
    assert [step][1..] == [];
  }

  // ------------------------------------------------------------------------------------------
  // The invariant
  // ------------------------------------------------------------------------------------------

  ghost predicate NoPrepare(w: World, tx: Tx, m: Member) {
    forall x :: x in w.net && x.op == Prepare && x.tx == tx ==> x.target != m
  }

  ghost predicate NoPrepareAt(w: World, tx: Tx) {
    forall x :: x in w.net && x.op == Prepare ==> x.tx != tx
  }

  /** The member has applied the plan of `tx` and waits for the decision. */
  predicate CommittedAt(w: World, tx: Tx, m: Member) {
    m in w.nodes && w.nodes[m].journal.tx == tx && w.nodes[m].journal.phase == Committed
  }

  predicate CommittedOrFinalized(w: World, tx: Tx, m: Member) {
    CommittedAt(w, tx, m) || Entry(m, tx, Finalized) in w.log
  }

  ghost predicate NodesInv(w: World) {
    && (forall m :: m in w.nodes ==>
      && w.nodes[m].id.cluster == w.cluster && w.nodes[m].id.member == m && JournalInv(w.nodes[m].journal))
    && (forall m :: m in w.nodes && w.nodes[m].journal.tx != NO_TX ==>
      && (w.nodes[m].journal.tx, m) in w.prepareSent
      && NoPrepare(w, w.nodes[m].journal.tx, m)
      && (w.nodes[m].journal.phase != Prepared ==> w.nodes[m].journal.tx in w.commitSent))
  }

  /** The member has finalized a betrayed transaction, which it may have failed to roll back before. */
  ghost predicate Tainted(w: World, m: Member) {
    exists t :: t in w.betrayed && Entry(m, t, Finalized) in w.log
  }

  predicate RunsActive(n: Node) {
    n.running == Runs(n.journal.active)
  }

  /** No transaction of the member is being applied or rolled back. */
  predicate AtRest(n: Node) {
    n.journal.tx == NO_TX || n.journal.phase == Prepared
  }

  /** A member that has committed runs the new plan, as long as nobody asks to roll it back. */
  predicate Applied(n: Node, rollback: bool) {
    n.journal.phase == Committed && !rollback ==> RunsActive(n)
  }

  /** The last transaction the member has ended is one that it finalized and that was not betrayed. */
  predicate EndedWell(w: World, n: Node) {
    n.journal.lastOutcome == Finalized && n.journal.lastTx in w.members && n.journal.lastTx !in w.betrayed
  }

  ghost predicate RunningInv(w: World) {
    forall m :: m in w.nodes ==>
      && Applied(w.nodes[m], w.nodes[m].journal.tx in w.rollbackSent)
      && (AtRest(w.nodes[m]) && (!Tainted(w, m) || EndedWell(w, w.nodes[m])) ==> RunsActive(w.nodes[m]))
  }

  ghost predicate NetInv(w: World) {
    && (forall x :: x in w.net ==>
      && x.serial < w.nextSerial && x.tx in w.members && x.target in w.members[x.tx] && x.op != Status
      && (x.op == Prepare ==> (x.tx, x.target) in w.prepareSent)
      && (x.op == Commit ==> x.tx in w.commitSent)
      && (x.op == Rollback ==> x.tx in w.rollbackSent)
      && (x.op == Finalize ==> x.tx in w.finalizeSent))
    && (forall x, y :: x in w.net && y in w.net && x.serial == y.serial ==> x == y)
    && (forall x, y :: x in w.net && y in w.net && x.op == Prepare && y.op == Prepare ==>
          (x.tx == y.tx && x.target == y.target ==> x == y))
    && (forall t :: t in w.commitSent ==> NoPrepareAt(w, t))
  }

  /** Every transaction in the history was started, by a rollout over members of the cluster. */
  ghost predicate HistoryInv(w: World) {
    && NO_TX !in w.members
    && (forall t, m :: t in w.members && m in w.members[t] ==> m in w.nodes)
    && (forall t, m :: (t, m) in w.prepareSent ==> t in w.members && m in w.members[t])
    && w.commitSent <= w.members.Keys && w.rollbackSent <= w.members.Keys
    && w.finalizeSent <= w.members.Keys && w.decided <= w.members.Keys && w.closed <= w.members.Keys
    && (forall t, m :: (t, m) in w.acked ==> t in w.rollbackSent)
  }

  ghost predicate DecisionInv(w: World) {
    && w.rollbackSent * w.decided <= w.betrayed <= w.decided
    && w.finalizeSent <= w.decided
    && (w.durable.Some? ==>
      && w.durable.value.tx in w.members
      && w.members[w.durable.value.tx] == w.durable.value.members
      && (w.durable.value.decision.ToFinalize? <==> w.durable.value.tx in w.decided)
      && w.durable.value.tx !in w.closed)
    && (forall t, m :: t in w.decided && t !in w.betrayed && t in w.members && m in w.members[t] ==> CommittedOrFinalized(w, t, m))
  }

  ghost predicate LogInv(w: World) {
    forall e :: e in w.log ==>
      && e.member in w.nodes && e.tx != NO_TX
      && (e.tx, e.member) in w.prepareSent
      && NoPrepare(w, e.tx, e.member)
      && w.nodes[e.member].journal.tx != e.tx
      && ((e.outcome == Finalized && e.tx in w.finalizeSent) || (e.outcome == RolledBack && e.tx in w.rollbackSent))
  }

  /** A member whose rollback the coordinator has seen never comes back to a commit of that transaction. */
  ghost predicate AckInv(w: World) {
    && (forall t, m :: (t, m) in w.acked && t in w.commitSent && m in w.nodes ==> w.nodes[m].journal.tx != t)
    && (forall t, m :: t in w.closed && t !in w.betrayed && t in w.members && m in w.members[t] ==>
          if t in w.decided then Entry(m, t, Finalized) in w.log else (t, m) in w.acked)
  }

  ghost predicate CoordInv(w: World) {
    w.coord.Busy? ==>
      var c := w.coord;
      && c.tx in w.members && w.members[c.tx] == c.members
      && w.durable.Some? && w.durable.value.tx == c.tx && w.durable.value.members == c.members
      && (if c.tx in w.betrayed then c.stage.Finishing? else w.durable.value.decision.ToFinalize? <==> c.stage == Finishing(ToFinalize))
      && (forall m :: m in c.todo ==> m in c.members)
      && (!c.stage.Finishing? ==> c.tx !in w.rollbackSent && Distinct(c.members) && c.master in c.members)
      && (c.stage.Preparing? ==>
        && c.tx !in w.commitSent && Distinct(c.todo)
        && (forall m :: m in c.members ==> m in c.plans)
        && (forall k :: 0 <= k < |c.todo| && (k > 0 || c.waiting.None?) ==> (c.tx, c.todo[k]) !in w.prepareSent)
        && (forall m :: m in c.members && m !in c.todo ==> NoPrepare(w, c.tx, m)))
      && (c.stage.CommittingAll? ==>
        && NoPrepareAt(w, c.tx)
        && (forall m :: m in c.members && m !in c.todo ==> CommittedAt(w, c.tx, m)))
      && (c.stage.Deciding? ==>
        && c.todo == [] && c.waiting.None?
        && (forall m :: m in c.members ==> CommittedAt(w, c.tx, m)))
      && (c.stage == Finishing(ToRollback) && !c.failed ==>
        forall m :: m in c.members && m !in c.todo ==> (c.tx, m) in w.acked)
      && (c.stage == Finishing(ToFinalize) && !c.failed && c.tx !in w.betrayed ==>
        forall m :: m in c.members && m !in c.todo ==> Entry(m, c.tx, Finalized) in w.log)
      && (c.waiting.Some? ==>
        && c.todo != [] && c.waiting.value < w.nextSerial
        && (forall x :: x in w.net && x.serial == c.waiting.value ==>
          x.tx == c.tx && x.target == c.todo[0] && x.op == StageOp(c.stage)))
  }

  ghost predicate Inv(w: World) {
    && NodesInv(w) && RunningInv(w) && NetInv(w) && HistoryInv(w)
    && DecisionInv(w) && LogInv(w) && AckInv(w) && CoordInv(w)
  }

  // ------------------------------------------------------------------------------------------
  // One execution, as the protocol sees it
  // ------------------------------------------------------------------------------------------

  lemma ExecutionFacts(n: Node, r: Request, env: Env)
    requires JournalInv(n.journal)
    ensures var (n', reply) := Execute(n, r, env);
            var j, j' := n.journal, n'.journal;
            && (reply == Done && r.op == Commit ==> j'.tx == r.tx && j'.phase == Committed)
            && (reply == Done && (r.op == Rollback || r.op == Finalize) ==> j'.tx == NO_TX)
            && (j.tx != NO_TX && j.phase == Committed && !(r.tx == j.tx && (r.op == Rollback || r.op == Finalize)) ==> n' == n)
            && (j'.tx != NO_TX && j'.phase != Prepared ==>
                  j'.tx == j.tx && (j.phase != Prepared || (r.op == Commit && r.tx == j.tx)))
            && (j.tx != NO_TX && r.tx != j.tx ==> n' == n)
  {
  }

  lemma InitialInv(w: World)
    requires Initial(w)
    ensures Inv(w)
  {
  }

  /** The nodes, the network and the log do not depend on what the coordinator knows. */
  lemma CoordinatorIsNeutral(w: World, w': World)
    requires NodesInv(w) && RunningInv(w) && NetInv(w) && LogInv(w)
    requires w' == w.(coord := w'.coord, acked := w'.acked, durable := w'.durable, decided := w'.decided, betrayed := w'.betrayed, closed := w'.closed)
    requires w.betrayed <= w'.betrayed
    ensures NodesInv(w') && RunningInv(w') && NetInv(w') && LogInv(w')
  {
  }

  lemma StartKeepsSystem(w: World, step: Step)
    requires Inv(w) && step.Start? && Enabled(w, step)
    ensures var w' := Next(w, step); NodesInv(w') && RunningInv(w') && NetInv(w') && LogInv(w')
  {
  }

  lemma StartKeepsHistory(w: World, step: Step)
    requires HistoryInv(w) && DecisionInv(w) && AckInv(w) && step.Start? && Enabled(w, step)
    ensures var w' := Next(w, step); HistoryInv(w') && DecisionInv(w') && AckInv(w')
  {
  }

  lemma StartKeepsCoord(w: World, step: Step)
    requires HistoryInv(w) && DecisionInv(w) && step.Start? && Enabled(w, step)
    ensures CoordInv(Next(w, step))
  {
  }

  lemma {:induction false} SlavesReversedMembers(members: seq<Member>, master: Member)
    ensures forall m :: m in SlavesReversed(members, master) <==> m in members && m != master
  {
    if members != [] {
      SlavesReversedMembers(members[1..], master);
    }
  }

  lemma SendKeepsNet(w: World)
    requires NetInv(w) && CoordInv(w) && Enabled(w, Send)
    ensures NetInv(AfterSend(w))
  {
  }

  lemma SendKeepsHistory(w: World)
    requires HistoryInv(w) && CoordInv(w) && Enabled(w, Send)
    ensures HistoryInv(AfterSend(w))
  {
  }

  lemma SendKeepsNodes(w: World)
    requires Inv(w) && Enabled(w, Send)
    ensures NodesInv(AfterSend(w)) && RunningInv(AfterSend(w)) && LogInv(AfterSend(w))
  {
  }

  lemma SendKeepsDecisions(w: World)
    requires Inv(w) && Enabled(w, Send)
    ensures DecisionInv(AfterSend(w)) && AckInv(AfterSend(w))
  {
  }

  lemma SendKeepsCoord(w: World)
    requires Inv(w) && Enabled(w, Send)
    ensures CoordInv(AfterSend(w))
  {
  }

  lemma AdvanceKeepsCoord(w: World)
    requires CoordInv(w) && NetInv(w) && HistoryInv(w) && Enabled(w, Advance)
    ensures CoordInv(Next(w, Advance))
  {
    SlavesReversedMembers(w.coord.members, w.coord.master);
  }

  lemma FailKeepsCoord(w: World)
    requires CoordInv(w) && Enabled(w, Timeout)
    ensures CoordInv(w.(coord := Fail(w.coord)))
  {
    assert forall m :: m in w.coord.todo ==> m == w.coord.todo[0] || m in w.coord.todo[1..];
  }

  lemma RecoverKeepsCoord(w: World, master: Member)
    requires DecisionInv(w) && Enabled(w, Recover(master))
    ensures CoordInv(Next(w, Recover(master)))
  {
  }

  /** A change of the coordinator process alone. */
  lemma CoordOnly(w: World, c: Coordinator)
    requires Inv(w) && CoordInv(w.(coord := c))
    ensures Inv(w.(coord := c))
  {
    CoordinatorIsNeutral(w, w.(coord := c));
  }

  lemma DecideKeepsDecisions(w: World, save: Save)
    requires HistoryInv(w) && DecisionInv(w) && AckInv(w) && CoordInv(w)
    requires Enabled(w, Decide(save))
    ensures var w' := AfterDecide(w, save); HistoryInv(w') && DecisionInv(w') && AckInv(w')
  {
  }

  lemma DecideKeepsCoord(w: World, save: Save)
    requires DecisionInv(w) && CoordInv(w) && Enabled(w, Decide(save))
    ensures CoordInv(AfterDecide(w, save))
  {
  }

  lemma CloseKeepsHistory(w: World, save: Save)
    requires HistoryInv(w) && DecisionInv(w) && AckInv(w) && CoordInv(w) && Enabled(w, Close(save))
    ensures var w' := AfterClose(w, save); HistoryInv(w') && DecisionInv(w') && AckInv(w') && CoordInv(w')
  {
  }

  /** What one delivery does to the nodes, in the protocol's terms. */
  lemma DeliverFacts(w: World, message: Message, env: Env)
    requires Inv(w) && message in w.net && message.target in w.nodes
    ensures var n, n' := w.nodes[message.target], Execute(w.nodes[message.target], RequestOf(w.cluster, message), env).0;
            var j, j' := n.journal, n'.journal;
            && JournalInv(j') && n'.id == n.id
            && (j'.tx != NO_TX && j'.tx != j.tx ==>
                  message.op == Prepare && message.tx == j'.tx && j.tx == NO_TX && j'.phase == Prepared && n'.running == n.running
                  && j'.active == j.active)
            && (j.tx != NO_TX && j'.tx == NO_TX ==>
                  && message.tx == j.tx
                  && ((message.op == Rollback && j'.lastOutcome == RolledBack)
                      || (message.op == Finalize && j'.lastOutcome == Finalized && j.phase == Committed)))
            && (j.tx != NO_TX && j.phase == Committed && !(message.tx == j.tx && (message.op == Rollback || message.op == Finalize))
                ==> n' == n)
            && (j'.tx != NO_TX && j'.phase != Prepared ==>
                  j'.tx == j.tx && (j.phase != Prepared || (message.op == Commit && message.tx == j.tx)))
  {
    var n := w.nodes[message.target];
    var r := RequestOf(w.cluster, message);
    ExecuteKeepsJournal(n, r, env);
    OpenTransactionChanges(n, r, env);
    ExecutionFacts(n, r, env);
  }

  lemma UnheardKeepsNodes(w: World, message: Message, env: Env)
    requires Inv(w) && Enabled(w, Deliver(message, env, false))
    ensures NodesInv(AfterDeliver(w, message, env, false))
  {
    hide Execute;
    DeliverFacts(w, message, env);
    var w' := AfterDeliver(w, message, env, false);
    assert w'.net <= w.net;
  }

  /** What an execution does to what a member runs. */
  lemma ExecutionRuns(n: Node, r: Request, env: Env, rollback: bool)
    requires JournalInv(n.journal) && Applied(n, rollback)
    requires r.op == Rollback && r.tx == n.journal.tx ==> rollback
    ensures var n' := Execute(n, r, env).0;
            && (n'.journal.tx == n.journal.tx ==> Applied(n', rollback))
            && (n'.journal.tx != n.journal.tx ==> AtRest(n'))
            && (AtRest(n) && RunsActive(n) && AtRest(n') ==> RunsActive(n'))
            && (!AtRest(n) && AtRest(n') ==> r.tx == n.journal.tx && n'.journal.tx == NO_TX && n'.journal.lastTx == n.journal.tx)
            && (!AtRest(n) && AtRest(n') && (r.op != Finalize || !rollback) ==> RunsActive(n'))
            && (!AtRest(n) && AtRest(n') && r.op == Finalize ==> n'.journal.lastOutcome == Finalized)
            && (AtRest(n) && n'.journal.lastTx != n.journal.lastTx ==> n'.journal.lastOutcome == RolledBack)
            && (AtRest(n) && n'.journal.lastOutcome == Finalized ==>
                  n.journal.lastOutcome == Finalized && n'.journal.lastTx == n.journal.lastTx)
  {
  }

  /** The log tells whether the member that got the message has closed its transaction. */
  lemma TargetKeepsRunning(w: World, message: Message, env: Env)
    requires Inv(w) && Enabled(w, Deliver(message, env, false))
    ensures var w' := AfterDeliver(w, message, env, false);
            var n' := w'.nodes[message.target];
            && Applied(n', n'.journal.tx in w'.rollbackSent)
            && (AtRest(n') && (!Tainted(w', message.target) || EndedWell(w', n')) ==> RunsActive(n'))
  {
    var n := w.nodes[message.target];
    var r := RequestOf(w.cluster, message);
    var sent := n.journal.tx in w.rollbackSent;
    NodeOf(w, message.target);
    NodeRuns(w, message.target);
    MessageOf(w, message);
    ExecutionRuns(n, r, env, sent);
    hide Execute;
    hide JournalInv;
    var w' := AfterDeliver(w, message, env, false);
    var n' := w'.nodes[message.target];
    TaintsStay(w, w');
    assert sent && n.journal.tx in w.decided ==> n.journal.tx in w.betrayed;
    hide Inv;
    if !AtRest(n) && AtRest(n') && r.op == Finalize {
      assert Entry(message.target, n.journal.tx, Finalized) in w'.log;
    }
  }

  lemma NodeOf(w: World, m: Member)
    requires Inv(w) && m in w.nodes
    ensures w.nodes[m].id.cluster == w.cluster && w.nodes[m].id.member == m && JournalInv(w.nodes[m].journal) && NO_TX !in w.members
  {
  }

  lemma NodeRuns(w: World, m: Member)
    requires Inv(w) && m in w.nodes
    ensures Applied(w.nodes[m], w.nodes[m].journal.tx in w.rollbackSent)
    ensures AtRest(w.nodes[m]) && (!Tainted(w, m) || EndedWell(w, w.nodes[m])) ==> RunsActive(w.nodes[m])
  {
  }

  lemma MessageOf(w: World, message: Message)
    requires Inv(w) && message in w.net
    ensures message.tx in w.members && message.op != Status
    ensures message.op == Rollback ==> message.tx in w.rollbackSent
    ensures message.op == Finalize ==> message.tx in w.decided
  {
  }

  lemma UnheardKeepsRunning(w: World, message: Message, env: Env)
    requires Inv(w) && Enabled(w, Deliver(message, env, false))
    ensures RunningInv(AfterDeliver(w, message, env, false))
  {
    hide Execute;
    var w' := AfterDeliver(w, message, env, false);
    TargetKeepsRunning(w, message, env);
    TaintsStay(w, w');
  }

  lemma TaintsStay(w: World, w': World)
    requires w.betrayed <= w'.betrayed && w.log <= w'.log
    ensures forall m :: Tainted(w, m) ==> Tainted(w', m)
  {
  }

  lemma UnheardKeepsNet(w: World, message: Message, env: Env)
    requires Inv(w) && Enabled(w, Deliver(message, env, false))
    ensures NetInv(AfterDeliver(w, message, env, false)) && HistoryInv(AfterDeliver(w, message, env, false))
  {
    hide Execute;
  }

  lemma UnheardKeepsDecisions(w: World, message: Message, env: Env)
    requires Inv(w) && Enabled(w, Deliver(message, env, false))
    ensures DecisionInv(AfterDeliver(w, message, env, false)) && AckInv(AfterDeliver(w, message, env, false))
  {
    DeliverFacts(w, message, env);
    ExecutionFacts(w.nodes[message.target], RequestOf(w.cluster, message), env);
    hide Execute;
  }

  lemma UnheardKeepsLog(w: World, message: Message, env: Env)
    requires Inv(w) && Enabled(w, Deliver(message, env, false))
    ensures LogInv(AfterDeliver(w, message, env, false))
  {
    hide Execute;
    DeliverFacts(w, message, env);
  }

  lemma UnheardKeepsCoord(w: World, message: Message, env: Env)
    requires Inv(w) && Enabled(w, Deliver(message, env, false))
    ensures CoordInv(AfterDeliver(w, message, env, false))
  {
    hide Execute;
    DeliverFacts(w, message, env);
  }

  /** The coordinator hears that the request it waits for was carried out. */
  ghost predicate Hears(w: World, message: Message, env: Env) {
    && Inv(w) && Enabled(w, Deliver(message, env, true)) && Inv(AfterDeliver(w, message, env, false))
    && Accepted(w.coord, message, Execute(w.nodes[message.target], RequestOf(w.cluster, message), env).1, true)
  }

  /** The coordinator of `w` strikes the member it has asked off its list, and gets `w'`. */
  ghost predicate Strikes(w: World, w': World) {
    && w.coord.Busy? && w.coord.todo != [] && !w.coord.stage.Deciding?
    && w'.coord == w.coord.(todo := w.coord.todo[1..], waiting := None)
    && w' == w.(coord := w'.coord, acked := w'.acked)
    && w'.acked == w.acked + (if w.coord.stage == Finishing(ToRollback) then {(w.coord.tx, w.coord.todo[0])} else {})
  }

  /** What the answer has told about the member. */
  ghost predicate Told(w: World) {
    && w.coord.Busy? && w.coord.todo != [] && w.coord.todo[0] in w.nodes
    && (w.coord.stage.Preparing? ==> NoPrepare(w, w.coord.tx, w.coord.todo[0]))
    && (w.coord.stage.CommittingAll? ==> CommittedAt(w, w.coord.tx, w.coord.todo[0]))
    && (w.coord.stage.Finishing? ==> w.nodes[w.coord.todo[0]].journal.tx == NO_TX)
  }

  /** The answer that is heard is of the request that was sent last. */
  lemma HeardIsAwaited(w: World, message: Message, env: Env)
    requires Hears(w, message, env)
    ensures w.coord.Busy? && w.coord.todo != [] && !w.coord.stage.Deciding?
    ensures message.tx == w.coord.tx && message.target == w.coord.todo[0] && message.op == StageOp(w.coord.stage)
  {
    hide Execute;
    hide AfterDeliver;
    hide NodesInv;
    hide RunningInv;
    hide DecisionInv;
    hide LogInv;
    hide AckInv;
    hide HistoryInv;
  }

  lemma HeardStrikes(w: World, message: Message, env: Env)
    requires Hears(w, message, env)
    ensures Strikes(AfterDeliver(w, message, env, false), AfterDeliver(w, message, env, true))
  {
    HeardIsAwaited(w, message, env);
    hide Execute;
    hide Inv;
  }

  lemma HeardTells(w: World, message: Message, env: Env)
    requires Hears(w, message, env)
    ensures Told(AfterDeliver(w, message, env, false))
  {
    HeardIsAwaited(w, message, env);
    NodesHaveJournals(w);
    ExecutionFacts(w.nodes[message.target], RequestOf(w.cluster, message), env);
    OnePrepare(w, message);
    hide Execute;
    hide JournalInv;
    hide Inv;
  }

  lemma NodesHaveJournals(w: World)
    requires Inv(w)
    ensures forall m :: m in w.nodes ==> JournalInv(w.nodes[m].journal)
  {
  }

  /** A prepare is sent to a member once. */
  lemma OnePrepare(w: World, message: Message)
    requires Inv(w) && message in w.net
    ensures message.op == Prepare ==>
              forall x :: x in w.net - {message} && x.op == Prepare && x.tx == message.tx ==> x.target != message.target
  {
    hide NodesInv;
    hide RunningInv;
    hide DecisionInv;
    hide LogInv;
    hide AckInv;
    hide HistoryInv;
    hide CoordInv;
  }

  lemma StrikesKeepsAcks(w: World, w': World)
    requires HistoryInv(w) && DecisionInv(w) && AckInv(w) && CoordInv(w) && Strikes(w, w') && Told(w)
    requires w.coord.stage == Finishing(ToRollback) ==> w.coord.tx in w.rollbackSent
    ensures HistoryInv(w') && DecisionInv(w') && AckInv(w')
  {
  }

  lemma StrikesKeepsCoord(w: World, w': World)
    requires DecisionInv(w) && NetInv(w) && HistoryInv(w) && CoordInv(w) && Strikes(w, w') && Told(w)
    ensures CoordInv(w')
  {
    assert forall m :: m in w.coord.todo ==> m == w.coord.todo[0] || m in w.coord.todo[1..];
  }

  lemma UnheardKeepsInv(w: World, message: Message, env: Env)
    requires Inv(w) && Enabled(w, Deliver(message, env, false))
    ensures Inv(AfterDeliver(w, message, env, false))
  {
    UnheardKeepsNodes(w, message, env);
    UnheardKeepsRunning(w, message, env);
    UnheardKeepsNet(w, message, env);
    UnheardKeepsDecisions(w, message, env);
    UnheardKeepsLog(w, message, env);
    UnheardKeepsCoord(w, message, env);
  }

  lemma AcceptedKeepsInv(w: World, message: Message, env: Env)
    requires Hears(w, message, env)
    ensures Inv(AfterDeliver(w, message, env, true))
  {
    var unheard, heardWorld := AfterDeliver(w, message, env, false), AfterDeliver(w, message, env, true);
    HeardStrikes(w, message, env);
    HeardTells(w, message, env);
    RollbackWasSent(w, message, env);
    hide AfterDeliver;
    hide NodesInv;
    hide RunningInv;
    hide NetInv;
    hide LogInv;
    hide HistoryInv;
    hide DecisionInv;
    hide AckInv;
    hide CoordInv;
    CoordinatorIsNeutral(unheard, heardWorld);
    StrikesKeepsAcks(unheard, heardWorld);
    StrikesKeepsCoord(unheard, heardWorld);
  }

  lemma RollbackWasSent(w: World, message: Message, env: Env)
    requires Hears(w, message, env)
    ensures var w' := AfterDeliver(w, message, env, false);
            w'.coord.Busy? && w'.coord.stage == Finishing(ToRollback) ==> w'.coord.tx in w'.rollbackSent
  {
    hide Execute;
    hide RunningInv;
    hide NodesInv;
    hide LogInv;
  }

  lemma DeliverKeepsInv(w: World, message: Message, env: Env, heard: bool)
    requires Inv(w) && Enabled(w, Deliver(message, env, heard))
    ensures Inv(AfterDeliver(w, message, env, heard))
  {
    UnheardKeepsInv(w, message, env);
    var reply := Execute(w.nodes[message.target], RequestOf(w.cluster, message), env).1;
    var unheard := AfterDeliver(w, message, env, false);
    if Accepted(w.coord, message, reply, heard) {
      AcceptedKeepsInv(w, message, env);
    } else if AfterReply(w.coord, message, reply, heard) != w.coord {
      FailKeepsCoord(unheard);
      CoordOnly(unheard, Fail(w.coord));
      assert AfterDeliver(w, message, env, heard) == unheard.(coord := Fail(w.coord));
    } else {
      assert AfterDeliver(w, message, env, heard) == unheard;
    }
  }

  lemma DecideKeepsInv(w: World, save: Save)
    requires Inv(w) && Enabled(w, Decide(save))
    ensures Inv(AfterDecide(w, save))
  {
    CoordinatorIsNeutral(w, AfterDecide(w, save));
    DecideKeepsDecisions(w, save);
    DecideKeepsCoord(w, save);
  }

  lemma NextKeepsInv(w: World, step: Step)
    requires Inv(w) && Enabled(w, step)
    ensures Inv(Next(w, step))
  {
    hide NodesInv;
    hide RunningInv;
    hide NetInv;
    hide HistoryInv;
    hide DecisionInv;
    hide LogInv;
    hide AckInv;
    hide CoordInv;
    match step
    case Start(_, _, _, _, _) => StartKeepsSystem(w, step); StartKeepsHistory(w, step); StartKeepsCoord(w, step);
    case Send => SendKeepsNet(w); SendKeepsHistory(w); SendKeepsNodes(w); SendKeepsDecisions(w); SendKeepsCoord(w);
    case Deliver(message, env, heard) => DeliverKeepsInv(w, message, env, heard);
    case Timeout => FailKeepsCoord(w); CoordOnly(w, Fail(w.coord));
    case Advance => AdvanceKeepsCoord(w); CoordOnly(w, Next(w, Advance).coord);
    case Decide(save) => DecideKeepsInv(w, save);
    case Close(save) => CoordinatorIsNeutral(w, AfterClose(w, save)); CloseKeepsHistory(w, save);
    case CrashCoordinator => CoordOnly(w, Idle);
    case Recover(master) => RecoverKeepsCoord(w, master); CoordOnly(w, Next(w, Recover(master)).coord);
  }

  lemma {:induction false} RunKeepsInv(w: World, steps: seq<Step>)
    requires Inv(w) && Runnable(w, steps)
    ensures Inv(RunWorld(w, steps))
    decreases |steps|
  {
    if steps != [] {
      NextKeepsInv(w, steps[0]);
      RunKeepsInv(Next(w, steps[0]), steps[1..]);
    }
  }

  // ------------------------------------------------------------------------------------------
  // Agreement and recovery over whole runs
  // ------------------------------------------------------------------------------------------

  /**
   Agreement, over every run: no transaction is ever finalized on one member and rolled back on
   another, unless it was betrayed. Once a member has finalized, the decision is to finalize and, with
   the same exception, every member of the rollout has committed or finalized.
   */
  lemma Agreement(w: World, steps: seq<Step>)
    requires Initial(w) && Runnable(w, steps)
    ensures var w' := RunWorld(w, steps);
            && (forall a, b, t :: t !in w'.betrayed ==> !(Entry(a, t, Finalized) in w'.log && Entry(b, t, RolledBack) in w'.log))
            && (forall a, t :: Entry(a, t, Finalized) in w'.log ==>
                  && t in w'.members
                  && (w'.durable.Some? && w'.durable.value.tx == t ==> w'.durable.value.decision == ToFinalize)
                  && (t !in w'.betrayed ==> forall m :: m in w'.members[t] ==> CommittedOrFinalized(w', t, m)))
  {
    InitialInv(w);
    RunKeepsInv(w, steps);
  }

  /**
   Local recovery, over every run: every saved journal passes the validator, and a member without an
   open transaction, or with one that is only prepared, runs exactly its active plan, unless it has
   finalized a betrayed transaction and has not finalized one that was not betrayed after it.
   */
  lemma LocalRecovery(w: World, steps: seq<Step>, m: Member)
    requires Initial(w) && Runnable(w, steps) && m in w.nodes
    ensures var w' := RunWorld(w, steps);
            && m in w'.nodes
            && TransactionClauses(w'.nodes[m].journal)
            && (AtRest(w'.nodes[m]) && (!Tainted(w', m) || EndedWell(w', w'.nodes[m])) ==> RunsActive(w'.nodes[m]))
  {
    InitialInv(w);
    RunKeepsInv(w, steps);
    RunKeepsMembers(w, steps);
  }

  lemma {:induction false} RunKeepsMembers(w: World, steps: seq<Step>)
    requires Runnable(w, steps)
    ensures RunWorld(w, steps).nodes.Keys == w.nodes.Keys
    decreases |steps|
  {
    if steps != [] {
      RunKeepsMembers(Next(w, steps[0]), steps[1..]);
      assert Next(w, steps[0]).nodes.Keys == w.nodes.Keys;
    }
  }

  /**
   A rollout the coordinator has closed: after a decision that was not betrayed every member has
   finalized it; without a decision no member has finalized it, and a member that has it open, because
   a prepare arrived late, has only prepared it and runs its active plan, unless it is tainted.
   */
  lemma ClosedRollout(w: World, steps: seq<Step>, t: Tx, m: Member)
    requires Initial(w) && Runnable(w, steps)
    requires var w' := RunWorld(w, steps); t in w'.closed && t !in w'.betrayed && t in w'.members && m in w'.members[t]
    ensures var w' := RunWorld(w, steps);
            if t in w'.decided then Entry(m, t, Finalized) in w'.log
            else
              && m in w'.nodes && Entry(m, t, Finalized) !in w'.log
              && (w'.nodes[m].journal.tx == t ==>
                    && w'.nodes[m].journal.phase == Prepared
                    && (!Tainted(w', m) || EndedWell(w', w'.nodes[m]) ==> RunsActive(w'.nodes[m])))
  {
    InitialInv(w);
    RunKeepsInv(w, steps);
  }

  /** After a closed rollback, no execution of a late request, in any state of any run, changes what the member runs. */
  lemma LateRequestsAreHarmless(w: World, steps: seq<Step>, message: Message, env: Env)
    requires Initial(w) && Runnable(w, steps)
    requires var w' := RunWorld(w, steps);
             && message in w'.net && message.target in w'.nodes
             && message.tx in w'.closed && message.tx !in w'.decided
    ensures var n := RunWorld(w, steps).nodes[message.target];
            var n' := Execute(n, RequestOf(w.cluster, message), env).0;
            && n'.running == n.running && n'.journal.active == n.journal.active
            && (n' != n ==> message.op == Prepare || message.op == Rollback)
  {
    InitialInv(w);
    RunKeepsInv(w, steps);
    RunKeepsCluster(w, steps);
    LateRequest(RunWorld(w, steps), message, env);
  }

  lemma LateRequest(w: World, message: Message, env: Env)
    requires Inv(w) && message in w.net && message.target in w.nodes && message.tx in w.closed && message.tx !in w.decided
    ensures var n := w.nodes[message.target];
            var n' := Execute(n, RequestOf(w.cluster, message), env).0;
            && n'.running == n.running && n'.journal.active == n.journal.active
            && (n' != n ==> message.op == Prepare || message.op == Rollback)
  {
    DeliverFacts(w, message, env);
  }

  lemma {:induction false} RunKeepsCluster(w: World, steps: seq<Step>)
    requires Runnable(w, steps)
    ensures RunWorld(w, steps).cluster == w.cluster
    decreases |steps|
  {
    if steps != [] {
      RunKeepsCluster(Next(w, steps[0]), steps[1..]);
    }
  }

  /**
   Once a member has ended a transaction, whether the rollout is closed or still in progress, no
   request of it that arrives later, whatever its kind, does anything to the member.
   */
  lemma EndedIsFinal(w: World, steps: seq<Step>, message: Message, env: Env, outcome: Outcome)
    requires Initial(w) && Runnable(w, steps)
    requires var w' := RunWorld(w, steps);
             && message in w'.net && message.target in w'.nodes && Entry(message.target, message.tx, outcome) in w'.log
    ensures var n := RunWorld(w, steps).nodes[message.target];
            Execute(n, RequestOf(w.cluster, message), env).0 == n
  {
    InitialInv(w);
    RunKeepsInv(w, steps);
    RunKeepsCluster(w, steps);
    EndedRequest(RunWorld(w, steps), message, env, outcome);
  }

  lemma EndedRequest(w: World, message: Message, env: Env, outcome: Outcome)
    requires Inv(w) && message in w.net && message.target in w.nodes && Entry(message.target, message.tx, outcome) in w.log
    ensures Execute(w.nodes[message.target], RequestOf(w.cluster, message), env).0 == w.nodes[message.target]
  {
    assert message.op != Prepare;
  }
}
