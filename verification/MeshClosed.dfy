/**
 What a closed rollback leaves behind. A prepare that was still in the network can open the
 transaction on a member after the coordinator has closed it; this says exactly when that can
 happen, and exactly when the member ever gets rid of it again.
 */
module MeshClosed {
  import opened Wrappers
  import opened MeshAgent
  import opened MeshRollout
  import opened MeshSplit

  predicate OpenAt(w: World, t: Tx, m: Member) {
    m in w.nodes && w.nodes[m].journal.tx == t
  }

  /** The plan is this member's, and newer than the one it has or would fall back to. */
  predicate Fits(n: Node, p: Plan) {
    && Own(n, p)
    && (Settled(n.journal).Some? ==> p.revision > Settled(n.journal).value.revision)
  }

  /** A prepare of the transaction that fits the member is in the network. */
  ghost predicate Coming(w: World, t: Tx, m: Member) {
    m in w.nodes && exists x :: x in w.net && x.op == Prepare && x.tx == t && x.target == m && x.plan.Some? && Fits(w.nodes[m], x.plan.value)
  }

  /** Neither the coordinator nor its log has to do with the transaction, and they never will again. */
  predicate Over(w: World, t: Tx) {
    && t != NO_TX && t in w.members
    && (w.coord.Busy? ==> w.coord.tx != t) && (w.durable.Some? ==> w.durable.value.tx != t)
  }

  lemma ClosedIsOver(w: World, t: Tx)
    requires Inv(w) && t in w.closed
    ensures Over(w, t)
  {
  }

  // ------------------------------------------------------------------------------------------
  // When a closed transaction opens again
  // ------------------------------------------------------------------------------------------

  lemma FitsLessAndLess(n: Node, r: Request, env: Env, p: Plan)
    requires JournalInv(n.journal) && Fits(Execute(n, r, env).0, p)
    ensures Fits(n, p)
  {
    SettledMoves(n, r, env);
    ExecuteKeepsJournal(n, r, env);
  }

  lemma OpenedFits(n: Node, r: Request, env: Env)
    requires JournalInv(n.journal)
    ensures var j, j' := n.journal, Execute(n, r, env).0.journal;
            j'.tx != j.tx && j'.tx != NO_TX ==> r.op == Prepare && r.tx == j'.tx && r.plan.Some? && Fits(n, r.plan.value)
  {
  }

  /** Every member's journal is well-formed; this is all that is needed of the invariant, and every step keeps it. */
  predicate Journals(w: World) {
    forall m :: m in w.nodes ==> JournalInv(w.nodes[m].journal)
  }

  lemma StepKeepsShut(w: World, step: Step, t: Tx, m: Member)
    requires Enabled(w, step) && Journals(w) && Over(w, t) && !OpenAt(w, t, m) && !Coming(w, t, m)
    ensures var w' := Next(w, step); Journals(w') && Over(w', t) && !OpenAt(w', t, m) && !Coming(w', t, m)
  {
    match step
    case Deliver(message, env, heard) => DeliverKeepsShut(w, message, env, heard, t, m);
    case Send =>
    case _ =>
  }

  lemma DeliverKeepsShut(w: World, message: Message, env: Env, heard: bool, t: Tx, m: Member)
    requires Enabled(w, Deliver(message, env, heard)) && Journals(w) && Over(w, t) && !OpenAt(w, t, m) && !Coming(w, t, m)
    ensures var w' := AfterDeliver(w, message, env, heard); Journals(w') && Over(w', t) && !OpenAt(w', t, m) && !Coming(w', t, m)
  {
    var n, r := w.nodes[message.target], RequestOf(w.cluster, message);
    ExecuteKeepsJournal(n, r, env);
    OpenedFits(n, r, env);
    forall p | Fits(Execute(n, r, env).0, p)
      ensures Fits(n, p)
    {
      FitsLessAndLess(n, r, env, p);
    }
    hide Execute;
    hide JournalInv;
    hide Fits;
  }

  lemma {:induction false} RunKeepsShut(w: World, steps: seq<Step>, t: Tx, m: Member)
    requires Runnable(w, steps) && Journals(w) && Over(w, t) && !OpenAt(w, t, m) && !Coming(w, t, m)
    ensures !OpenAt(RunWorld(w, steps), t, m)
    decreases |steps|
  {
    hide Coming;
    hide Journals;
    if steps != [] {
      StepKeepsShut(w, steps[0], t, m);
      RunKeepsShut(Next(w, steps[0]), steps[1..], t, m);
    }
  }

  /** Only prepares carry a plan, and the last transaction a member remembers is in its history. */
  ghost predicate Remembers(w: World) {
    && (forall x :: x in w.net && x.op != Prepare ==> x.plan.None?)
    && forall m :: m in w.nodes && w.nodes[m].journal.lastTx in w.members ==>
      Entry(m, w.nodes[m].journal.lastTx, w.nodes[m].journal.lastOutcome) in w.log
  }

  lemma LastIsClosed(n: Node, r: Request, env: Env)
    ensures var j, j' := n.journal, Execute(n, r, env).0.journal;
            if j'.lastTx == j.lastTx && j'.lastOutcome == j.lastOutcome then true
            else j.tx != NO_TX && j'.tx == NO_TX && j'.lastTx == j.tx
  {
  }

  lemma StepRemembers(w: World, step: Step)
    requires Enabled(w, step) && Remembers(w)
    ensures Remembers(Next(w, step))
  {
    match step
    case Deliver(message, env, heard) =>
      LastIsClosed(w.nodes[message.target], RequestOf(w.cluster, message), env);
      hide Execute;
    case _ =>
  }

  lemma {:induction false} RunRemembers(w: World, steps: seq<Step>)
    requires Runnable(w, steps) && Remembers(w)
    ensures Remembers(RunWorld(w, steps))
    decreases |steps|
  {
    hide Remembers;
    if steps != [] {
      StepRemembers(w, steps[0]);
      RunRemembers(Next(w, steps[0]), steps[1..]);
    }
  }

  /** The prepare that is coming opens the transaction on a member that has none. */
  lemma ComingOpens(w: World, t: Tx, m: Member)
    requires Inv(w) && Remembers(w) && t in w.members && Coming(w, t, m) && w.nodes[m].journal.tx == NO_TX
    ensures exists more :: Runnable(w, more) && OpenAt(RunWorld(w, more), t, m)
  {
    var x :| x in w.net && x.op == Prepare && x.tx == t && x.target == m && x.plan.Some? && Fits(w.nodes[m], x.plan.value);
    NodeOf(w, m);
    assert w.nodes[m].journal.lastTx != t;
    var step := Deliver(x, ALL_WELL, false);
    hide Inv;
    OneStep(w, step);
    assert OpenAt(Next(w, step), t, m);
    assert OpenAt(RunWorld(w, [step]), t, m);
  }

  /**
   In every reachable state: after a closed rollback a member without another transaction
   is rid of it for good exactly when it does not have it open and no prepare that fits is coming.
   A busy member is rid of it if that holds.
   */
  lemma ClosedRollbackStays(w0: World, steps: seq<Step>, t: Tx, m: Member)
    requires Initial(w0) && Runnable(w0, steps)
    requires var w := RunWorld(w0, steps); t in w.closed && t !in w.decided && m in w.nodes
    ensures var w := RunWorld(w0, steps);
            var stays := forall more :: Runnable(w, more) ==> !OpenAt(RunWorld(w, more), t, m);
            && (!OpenAt(w, t, m) && !Coming(w, t, m) ==> stays)
            && (w.nodes[m].journal.tx == NO_TX || w.nodes[m].journal.tx == t ==>
                  (stays <==> !OpenAt(w, t, m) && !Coming(w, t, m)))
  {
    var w := RunWorld(w0, steps);
    InitialInv(w0);
    RunKeepsInv(w0, steps);
    RunRemembers(w0, steps);
    hide Initial;
    hide Inv;
    hide Runnable;
    hide RunWorld;
    hide Remembers;
    hide Coming;
    if !OpenAt(w, t, m) && !Coming(w, t, m) {
      ShutStays(w, t, m);
    } else if OpenAt(w, t, m) || w.nodes[m].journal.tx == NO_TX {
      OpensAgain(w, t, m);
    }
  }

  /** What is shut and not coming never opens. */
  lemma ShutStays(w: World, t: Tx, m: Member)
    requires Inv(w) && t in w.closed && !OpenAt(w, t, m) && !Coming(w, t, m)
    ensures forall more :: Runnable(w, more) ==> !OpenAt(RunWorld(w, more), t, m)
  {
    ClosedIsOver(w, t);
    JournalsOf(w);
    hide Inv;
    hide Coming;
    hide Runnable;
    hide RunWorld;
    hide Over;
    hide Journals;
    forall more | Runnable(w, more)
      ensures !OpenAt(RunWorld(w, more), t, m)
    {
      RunKeepsShut(w, more, t, m);
    }
  }

  /** What is open, or is coming to a member without a transaction, is open at some time. */
  lemma OpensAgain(w: World, t: Tx, m: Member)
    requires Inv(w) && Remembers(w) && t in w.closed
    requires OpenAt(w, t, m) || (Coming(w, t, m) && w.nodes[m].journal.tx == NO_TX)
    ensures exists more :: Runnable(w, more) && OpenAt(RunWorld(w, more), t, m)
  {
    if OpenAt(w, t, m) {
      OpenNow(w, t, m);
    } else {
      ClosedIsOver(w, t);
      hide Inv;
      hide Coming;
      OverIsKnown(w, t);
      ComingOpens(w, t, m);
    }
  }

  lemma OpenNow(w: World, t: Tx, m: Member)
    requires OpenAt(w, t, m)
    ensures exists more :: Runnable(w, more) && OpenAt(RunWorld(w, more), t, m)
  {
    var none: seq<Step> := [];
    assert Runnable(w, none) && RunWorld(w, none) == w;
    assert OpenAt(RunWorld(w, none), t, m);
  }

  lemma JournalsOf(w: World)
    requires Inv(w)
    ensures Journals(w)
  {
  }

  lemma OverIsKnown(w: World, t: Tx)
    requires Over(w, t)
    ensures t in w.members
  {
  }

  // ------------------------------------------------------------------------------------------
  // When it closes again
  // ------------------------------------------------------------------------------------------

  /** Nothing in the network can end the transaction on the member. */
  ghost predicate NoEnd(w: World, t: Tx, m: Member) {
    forall x :: x in w.net && x.tx == t && x.target == m ==> x.op != Rollback && x.op != Finalize
  }

  lemma StepKeepsStuck(w: World, step: Step, t: Tx, m: Member)
    requires Enabled(w, step) && Over(w, t) && OpenAt(w, t, m) && NoEnd(w, t, m)
    ensures var w' := Next(w, step); Over(w', t) && OpenAt(w', t, m) && NoEnd(w', t, m)
  {
    match step
    case Deliver(message, env, heard) =>
      ClosesAsAsked(w.nodes[message.target], RequestOf(w.cluster, message), env);
      OpensByPrepare(w.nodes[message.target], RequestOf(w.cluster, message), env);
      OthersKeepOut(w.nodes[message.target], RequestOf(w.cluster, message), env);
      hide Execute;
    case Send =>
    case _ =>
  }

  /** A member with an open transaction takes no other. */
  lemma OthersKeepOut(n: Node, r: Request, env: Env)
    ensures n.journal.tx != NO_TX ==> Execute(n, r, env).0.journal.tx in {n.journal.tx, NO_TX}
  {
  }

  lemma {:induction false} RunKeepsStuck(w: World, steps: seq<Step>, t: Tx, m: Member)
    requires Runnable(w, steps) && Over(w, t) && OpenAt(w, t, m) && NoEnd(w, t, m)
    ensures OpenAt(RunWorld(w, steps), t, m)
    decreases |steps|
  {
    hide NoEnd;
    if steps != [] {
      StepKeepsStuck(w, steps[0], t, m);
      RunKeepsStuck(Next(w, steps[0]), steps[1..], t, m);
    }
  }

  /** A rollback in the network: the message that can still end the transaction on the member. */
  ghost predicate EndComing(w: World, t: Tx, m: Member) {
    exists x :: x in w.net && x.op == Rollback && x.tx == t && x.target == m
  }

  lemma RollbackEnds(w: World, t: Tx, m: Member)
    requires Inv(w) && Remembers(w) && t in w.closed && t !in w.decided && OpenAt(w, t, m) && EndComing(w, t, m)
    ensures exists more :: Runnable(w, more) && !OpenAt(RunWorld(w, more), t, m)
  {
    var x :| x in w.net && x.op == Rollback && x.tx == t && x.target == m;
    NodeOf(w, m);
    ClosedIsOver(w, t);
    assert w.nodes[m].journal.phase == Prepared;
    hide Inv;
    var step := Deliver(x, ALL_WELL, false);
    OneStep(w, step);
    assert !OpenAt(RunWorld(w, [step]), t, m);
  }

  /**
   In every reachable state: a member that has a closed rollback open gets rid of it exactly
   if a rollback of it is still in the network; otherwise it keeps it for ever.
   */
  lemma OpenAfterClose(w0: World, steps: seq<Step>, t: Tx, m: Member)
    requires Initial(w0) && Runnable(w0, steps)
    requires var w := RunWorld(w0, steps); t in w.closed && t !in w.decided && OpenAt(w, t, m)
    ensures var w := RunWorld(w0, steps);
            (exists more :: Runnable(w, more) && !OpenAt(RunWorld(w, more), t, m)) <==> EndComing(w, t, m)
  {
    var w := RunWorld(w0, steps);
    InitialInv(w0);
    RunKeepsInv(w0, steps);
    RunRemembers(w0, steps);
    ClosedIsOver(w, t);
    hide Initial;
    if EndComing(w, t, m) {
      RollbackEnds(w, t, m);
    } else {
      NoFinalize(w, t, m);
      hide Inv;
      forall more | Runnable(w, more)
        ensures OpenAt(RunWorld(w, more), t, m)
      {
        RunKeepsStuck(w, more, t, m);
      }
    }
  }

  lemma NoFinalize(w: World, t: Tx, m: Member)
    requires Inv(w) && t !in w.decided && !EndComing(w, t, m)
    ensures NoEnd(w, t, m)
  {
  }

  // ------------------------------------------------------------------------------------------
  // It happens
  // ------------------------------------------------------------------------------------------

  /** A rollout over a master and another member that both welcome their plans. */
  ghost predicate Inviting(w: World, t: Tx, a: Member, m: Member, plans: map<Member, Plan>) {
    && Initial(w) && Enabled(w, Start(t, [a, m], a, plans, Saved))
    && Welcomes(w.nodes[a], t, plans[a]) && Welcomes(w.nodes[m], t, plans[m])
  }

  /** The master has prepared. */
  lemma MasterPrepares(w: World, t: Tx, a: Member, m: Member, plans: map<Member, Plan>) returns (w': World, steps: seq<Step>)
    requires Inviting(w, t, a, m, plans)
    ensures Runnable(w, steps) && w' == RunWorld(w, steps) && (forall step :: step in steps ==> Honest(step))
    ensures w'.coord == Busy(t, [a, m], a, plans, Preparing, [m], None, false) && m in plans
    ensures a != m && t != NO_TX && w'.cluster == w.cluster && w'.decided == {} && w'.net == {}
    ensures m in w.nodes && m in w'.nodes && w'.nodes[m] == w.nodes[m] && Known(w', m)
    ensures Known(w', a) && w'.nodes[a].journal.tx == t && w'.nodes[a].journal.phase == Prepared
    ensures w'.durable == Some(Rollout(t, [a, m], ToRollback))
  {
    InitialKnows(w, a);
    InitialKnows(w, m);
    assert [a, m][0] == a && [a, m][1] == m && [a, m][1..] == [m];
    w', steps := Add(w, w, [], Start(t, [a, m], a, plans, Saved));
    assert w'.net == {} && w'.decided == {} && w'.nodes == w.nodes && w'.cluster == w.cluster;
    WelcomeIsPrepared(w');
    hide Initial;
    hide Execute;
    hide JournalInv;
    hide Welcomes;
    hide Next;
    w', steps := AskNext(w, w', steps);
  }

  /** The prepare of the other member gets no answer in time. */
  lemma PrepareUnanswered(w: World, t: Tx, a: Member, m: Member, plans: map<Member, Plan>) returns (w': World, steps: seq<Step>)
    requires Inviting(w, t, a, m, plans)
    ensures Runnable(w, steps) && w' == RunWorld(w, steps) && (forall step :: step in steps ==> Honest(step))
    ensures w'.coord == Busy(t, [a, m], a, plans, Finishing(ToRollback), [a, m], None, false)
    ensures a != m && t != NO_TX && m in plans && w'.cluster == w.cluster && w'.decided == {}
    ensures m in w.nodes && m in w'.nodes && w'.nodes[m] == w.nodes[m] && Known(w', m)
    ensures Known(w', a) && w'.nodes[a].journal.tx == t && w'.nodes[a].journal.phase == Prepared
    ensures w'.durable == Some(Rollout(t, [a, m], ToRollback))
    ensures exists serial :: w'.net == {Message(serial, Prepare, t, m, Some(plans[m]))}
  {
    w', steps := MasterPrepares(w, t, a, m, plans);
    hide Inviting;
    hide Execute;
    ghost var serial := w'.nextSerial;
    w', steps := Add(w, w', steps, Send);
    w', steps := Add(w, w', steps, Timeout);
    assert w'.net == {Message(serial, Prepare, t, m, Some(plans[m]))};
  }

  predicate Known(w: World, m: Member) {
    m in w.nodes && w.nodes[m].id.cluster == w.cluster && w.nodes[m].id.member == m
  }

  lemma InitialKnows(w: World, m: Member)
    requires Initial(w) && m in w.nodes
    ensures Known(w, m) && JournalInv(w.nodes[m].journal)
  {
  }

  lemma WelcomeIsPrepared(w: World)
    requires Enabled(w, Send) && w.coord.stage.Preparing? && Known(w, w.coord.todo[0]) && w.coord.tx != NO_TX
    requires var n := w.nodes[w.coord.todo[0]]; JournalInv(n.journal) && Welcomes(n, w.coord.tx, w.coord.plans[w.coord.todo[0]])
    ensures Answer(w).1 == Done && Answer(w).0.id == w.nodes[w.coord.todo[0]].id
    ensures var j := Answer(w).0.journal;
            j.tx == w.coord.tx && j.phase == Prepared && j.lastTx == w.nodes[w.coord.todo[0]].journal.lastTx
  {
  }

  /** Both rollbacks are answered before it has arrived, and the rollout closes. */
  lemma ClosedTooEarly(w: World, t: Tx, a: Member, m: Member, plans: map<Member, Plan>) returns (w': World, steps: seq<Step>)
    requires Inviting(w, t, a, m, plans)
    ensures Runnable(w, steps) && w' == RunWorld(w, steps) && (forall step :: step in steps ==> Honest(step))
    ensures t in w'.closed && t !in w'.decided && w'.cluster == w.cluster
    ensures m in w'.nodes && w'.nodes[m] == w.nodes[m] && Known(w', m)
    ensures exists serial :: w'.net == {Message(serial, Prepare, t, m, Some(plans[m]))}
  {
    w', steps := PrepareUnanswered(w, t, a, m, plans);
    assert t != NO_TX && w.nodes[m].journal.tx == NO_TX && w.nodes[m].journal.lastTx != t;
    hide Inviting;
    hide Runnable;
    hide RunWorld;
    PreparedRollsBack(w');
    ghost var serial :| w'.net == {Message(serial, Prepare, t, m, Some(plans[m]))};
    hide Execute;
    assert [a, m][1..] == [m] && [m][1..] == [];
    w', steps := AskNext(w, w', steps);
    IdleRollsBack(w');
    w', steps := AskNext(w, w', steps);
    assert w'.net == {Message(serial, Prepare, t, m, Some(plans[m]))};
    w', steps := Add(w, w', steps, Close(Saved));
  }

  lemma PreparedRollsBack(w: World)
    requires Enabled(w, Send) && w.coord.stage == Finishing(ToRollback) && Known(w, w.coord.todo[0]) && w.coord.tx != NO_TX
    requires var j := w.nodes[w.coord.todo[0]].journal; j.tx == w.coord.tx && j.phase == Prepared
    ensures Answer(w).1 == Done
  {
  }

  lemma IdleRollsBack(w: World)
    requires Enabled(w, Send) && w.coord.stage == Finishing(ToRollback) && w.coord.todo[0] in w.nodes && w.coord.tx != NO_TX
    requires var n := w.nodes[w.coord.todo[0]];
             && n.id.cluster == w.cluster && n.id.member == w.coord.todo[0] && n.journal.tx == NO_TX && n.journal.lastTx != w.coord.tx
    ensures Answer(w) == (w.nodes[w.coord.todo[0]], Done)
  {
  }

  /**
   In every new cluster a rollout over a master and another member that welcome their plans has a run
   after which the rollout is closed as rolled back and the other member has it open for ever.
   */
  lemma LatePrepareStays(w: World, t: Tx, a: Member, m: Member, plans: map<Member, Plan>) returns (w': World, steps: seq<Step>)
    requires Inviting(w, t, a, m, plans)
    ensures Runnable(w, steps) && w' == RunWorld(w, steps) && (forall step :: step in steps ==> Honest(step))
    ensures t in w'.closed && t !in w'.decided && OpenAt(w', t, m)
    ensures forall more :: Runnable(w', more) ==> OpenAt(RunWorld(w', more), t, m)
  {
    w', steps := ClosedTooEarly(w, t, a, m, plans);
    ghost var serial :| w'.net == {Message(serial, Prepare, t, m, Some(plans[m]))};
    var late := Message(serial, Prepare, t, m, Some(plans[m]));
    var w1 := w';
    InitialKnows(w, m);
    Opens(w.nodes[m], RequestOf(w.cluster, late), plans[m]);
    hide Execute;
    hide Welcomes;
    w', steps := Add(w, w1, steps, Deliver(late, ALL_WELL, false));
    OpenAfterClose(w, steps, t, m);
    assert !EndComing(w', t, m);
  }

  lemma Opens(n: Node, r: Request, p: Plan)
    requires JournalInv(n.journal) && r.tx != NO_TX && Welcomes(n, r.tx, p) && r == Request(n.id.cluster, n.id.member, Prepare, r.tx, Some(p))
    ensures Execute(n, r, ALL_WELL).0.journal.tx == r.tx
  {
  }
}
