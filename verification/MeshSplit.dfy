/**
 When agreement and local recovery break. A transaction can end finalized on one member and rolled
 back on another exactly when its decision save stores "finalize", reports an error nevertheless, and
 the rollout has two members; a member can be left running something else than its active plan exactly
 when the save is dishonest. Nothing that happens to other transactions matters.
 */
module MeshSplit {
  import opened Wrappers
  import opened MeshAgent
  import opened MeshRollout

  /** The transaction has ended both ways. */
  ghost predicate Split(w: World, t: Tx) {
    exists a, b :: Entry(a, t, RolledBack) in w.log && Entry(b, t, Finalized) in w.log
  }

  // ------------------------------------------------------------------------------------------
  // Only a dishonest decision splits
  // ------------------------------------------------------------------------------------------

  predicate About(c: Coordinator, t: Tx) {
    c.Busy? && c.tx == t
  }

  /** The save of the decision about `t` reports an error although it has taken effect. */
  predicate Betrays(w: World, step: Step, t: Tx) {
    step == Decide(SavedThenError) && About(w.coord, t)
  }

  /** Somewhere along the steps the decision about `t` is saved dishonestly. */
  predicate Betrayed(w: World, steps: seq<Step>, t: Tx)
    requires Runnable(w, steps)
    decreases |steps|
  {
    steps != [] && (Betrays(w, steps[0], t) || Betrayed(Next(w, steps[0]), steps[1..], t))
  }

  /** The history records exactly these saves. */
  lemma {:induction false} BetrayedIs(w: World, steps: seq<Step>, t: Tx)
    requires Runnable(w, steps)
    ensures t in RunWorld(w, steps).betrayed <==> t in w.betrayed || Betrayed(w, steps, t)
    decreases |steps|
  {
    if steps != [] {
      assert t in Next(w, steps[0]).betrayed <==> t in w.betrayed || Betrays(w, steps[0], t);
      BetrayedIs(Next(w, steps[0]), steps[1..], t);
    }
  }

  /**
   In any run whatever, dishonest saves of other decisions included, a transaction splits only if the
   save of its own decision was dishonest.
   */
  lemma SplitsOnlyByBetrayal(w: World, steps: seq<Step>, t: Tx)
    requires Initial(w) && Runnable(w, steps) && Split(RunWorld(w, steps), t)
    ensures Betrayed(w, steps, t)
  {
    Agreement(w, steps);
    BetrayedIs(w, steps, t);
  }

  /** The decision about the transaction has been made, and it is made once. */
  predicate Decided(w: World, t: Tx) {
    t in w.members && (About(w.coord, t) ==> w.coord.stage.Finishing?)
  }

  lemma {:induction false} DecidedOnce(w: World, steps: seq<Step>, t: Tx)
    requires Decided(w, t) && Runnable(w, steps)
    ensures t in RunWorld(w, steps).members
    ensures t in RunWorld(w, steps).betrayed ==> t in w.betrayed
    decreases |steps|
  {
    if steps != [] {
      assert Decided(Next(w, steps[0]), t);
      DecidedOnce(Next(w, steps[0]), steps[1..], t);
    }
  }

  /** What an honest decision leads to. */
  lemma HonestyStays(w: World, save: Save, rest: seq<Step>)
    requires Inv(w) && Enabled(w, Decide(save)) && Runnable(w, [Decide(save)] + rest)
    ensures var w' := RunWorld(w, [Decide(save)] + rest);
            Inv(w') && w.coord.tx in w'.members && (save != SavedThenError ==> w.coord.tx !in w'.betrayed)
  {
    var t := w.coord.tx;
    var w1 := Next(w, Decide(save));
    assert ([Decide(save)] + rest)[1..] == rest;
    assert Runnable(w1, rest) && RunWorld(w, [Decide(save)] + rest) == RunWorld(w1, rest);
    NotYetBetrayed(w);
    NextKeepsInv(w, Decide(save));
    hide Inv;
    assert Decided(w1, t) && (save != SavedThenError ==> t !in w1.betrayed);
    hide Next;
    hide Enabled;
    hide Runnable;
    hide RunWorld;
    hide Decided;
    RunKeepsInv(w1, rest);
    DecidedOnce(w1, rest, t);
  }

  lemma NotYetBetrayed(w: World)
    requires Inv(w) && w.coord.Busy? && w.coord.stage.Deciding?
    ensures w.coord.tx !in w.betrayed && w.coord.tx in w.members
  {
  }

  lemma ClosesAsAsked(n: Node, r: Request, env: Env)
    ensures var (j, j') := (n.journal, Execute(n, r, env).0.journal);
            j.tx != NO_TX && j'.tx == NO_TX ==>
              r.tx == j.tx && ((r.op == Rollback && j'.lastOutcome == RolledBack) || (r.op == Finalize && j'.lastOutcome == Finalized))
  {
  }

  // ------------------------------------------------------------------------------------------
  // One member never splits
  // ------------------------------------------------------------------------------------------

  /** No member can open `t` any more, and each has ended it once at most. */
  ghost predicate EndsOnce(w: World, t: Tx) {
    && t != NO_TX && t in w.members && NoPrepareAt(w, t)
    && (About(w.coord, t) ==> w.coord.stage.Deciding? || w.coord.stage.Finishing?)
    && (forall m :: m in w.nodes && w.nodes[m].journal.tx == t ==> m in w.members[t])
    && (forall e :: e in w.log && e.tx == t ==> e.member in w.members[t] && e.member in w.nodes && w.nodes[e.member].journal.tx != t)
    && (forall e, f :: e in w.log && f in w.log && e.tx == t && f.tx == t && e.member == f.member ==> e == f)
  }

  lemma DecidingEndsOnce(w: World)
    requires Inv(w) && w.coord.Busy? && w.coord.stage.Deciding?
    ensures EndsOnce(w, w.coord.tx)
  {
    assert CommittedAt(w, w.coord.tx, w.coord.master);
  }

  lemma OpensByPrepare(n: Node, r: Request, env: Env)
    ensures var (j, j') := (n.journal, Execute(n, r, env).0.journal);
            j'.tx != NO_TX && j'.tx != j.tx ==> r.op == Prepare && r.tx == j'.tx
  {
  }

  lemma DeliverEndsOnce(w: World, message: Message, env: Env, heard: bool, t: Tx)
    requires Enabled(w, Deliver(message, env, heard)) && EndsOnce(w, t)
    ensures EndsOnce(AfterDeliver(w, message, env, heard), t)
  {
    hide Execute;
    OpensByPrepare(w.nodes[message.target], RequestOf(w.cluster, message), env);
    ClosesAsAsked(w.nodes[message.target], RequestOf(w.cluster, message), env);
  }

  lemma StepEndsOnce(w: World, step: Step, t: Tx)
    requires Enabled(w, step) && EndsOnce(w, t)
    ensures EndsOnce(Next(w, step), t) && Next(w, step).members[t] == w.members[t]
  {
    match step
    case Deliver(message, env, heard) => DeliverEndsOnce(w, message, env, heard, t); hide EndsOnce;
    case _ =>
  }

  lemma {:induction false} RunEndsOnce(w: World, steps: seq<Step>, t: Tx)
    requires EndsOnce(w, t) && Runnable(w, steps)
    ensures EndsOnce(RunWorld(w, steps), t) && RunWorld(w, steps).members[t] == w.members[t]
    decreases |steps|
  {
    if steps != [] {
      StepEndsOnce(w, steps[0], t);
      hide EndsOnce;
      RunEndsOnce(Next(w, steps[0]), steps[1..], t);
    }
  }

  // ------------------------------------------------------------------------------------------
  // Well rollouts
  // ------------------------------------------------------------------------------------------

  const ALL_WELL := Env(true, true, Saved, Apply(Worked, Worked), Saved)

  function Question(w: World): Message
    requires Enabled(w, Send)
  {
    var op, m := StageOp(w.coord.stage), w.coord.todo[0];
    Message(w.nextSerial, op, w.coord.tx, m, if op == Prepare then Some(w.coord.plans[m]) else None)
  }

  /** What the next member answers if nothing fails. */
  function Answer(w: World): (Node, Reply)
    requires Enabled(w, Send) && w.coord.todo[0] in w.nodes
  {
    Execute(w.nodes[w.coord.todo[0]], RequestOf(w.cluster, Question(w)), ALL_WELL)
  }

  /** The next member is asked and its answer is heard. */
  lemma Ask(w: World) returns (w': World, steps: seq<Step>)
    requires Enabled(w, Send) && w.coord.todo[0] in w.nodes && Answer(w).1 == Done
    ensures Runnable(w, steps) && w' == RunWorld(w, steps) && (forall step :: step in steps ==> Honest(step))
    ensures w'.nodes == w.nodes[w.coord.todo[0] := Answer(w).0] && w'.cluster == w.cluster
    ensures w'.coord == w.coord.(todo := w.coord.todo[1..]) && w'.durable == w.durable
    ensures w'.net == w.net - {Question(w)} && w'.decided == w.decided && w'.closed == w.closed
    ensures w.log <= w'.log
    ensures var j, j' := w.nodes[w.coord.todo[0]].journal, Answer(w).0.journal;
            j.tx != NO_TX && j'.tx == NO_TX ==> Entry(w.coord.todo[0], j.tx, j'.lastOutcome) in w'.log
  {
    hide Execute;
    var step := Deliver(Question(w), ALL_WELL, true);
    OneStep(w, Send);
    OneStep(AfterSend(w), step);
    RunOn(w, [Send], [step]);
    w', steps := Next(AfterSend(w), step), [Send] + [step];
  }

  /** A step the coordinator takes by itself. */
  lemma Add(w0: World, w: World, steps: seq<Step>, step: Step) returns (w': World, steps': seq<Step>)
    requires Runnable(w0, steps) && w == RunWorld(w0, steps) && Enabled(w, step)
    ensures w' == Next(w, step) && steps' == steps + [step]
    ensures Runnable(w0, steps') && w' == RunWorld(w0, steps')
  {
    OneStep(w, step);
    RunOn(w0, steps, [step]);
    w', steps' := Next(w, step), steps + [step];
  }

  lemma AskNext(w0: World, w: World, steps: seq<Step>) returns (w': World, steps': seq<Step>)
    requires Runnable(w0, steps) && w == RunWorld(w0, steps)
    requires Enabled(w, Send) && w.coord.todo[0] in w.nodes && Answer(w).1 == Done
    ensures Runnable(w0, steps') && w' == RunWorld(w0, steps') && steps <= steps'
    ensures (forall step :: step in steps ==> Honest(step)) ==> forall step :: step in steps' ==> Honest(step)
    ensures w'.nodes == w.nodes[w.coord.todo[0] := Answer(w).0] && w'.cluster == w.cluster
    ensures w'.coord == w.coord.(todo := w.coord.todo[1..]) && w'.durable == w.durable
    ensures w'.net == w.net - {Question(w)} && w'.decided == w.decided && w'.closed == w.closed
    ensures w.log <= w'.log
    ensures var j, j' := w.nodes[w.coord.todo[0]].journal, Answer(w).0.journal;
            j.tx != NO_TX && j'.tx == NO_TX ==> Entry(w.coord.todo[0], j.tx, j'.lastOutcome) in w'.log
  {
    hide Execute;
    var more;
    w', more := Ask(w);
    RunOn(w0, steps, more);
    steps' := steps + more;
  }

  /** The member would prepare the plan: it has no transaction, knows nothing of this one, and the plan is its own and newer. */
  predicate Welcomes(n: Node, t: Tx, p: Plan) {
    && n.journal.tx == NO_TX && n.journal.lastTx != t
    && Own(n, p)
    && (n.journal.active.Some? ==> p.revision > n.journal.active.value.revision)
  }

  predicate HeldAt(w: World, t: Tx, m: Member) {
    m in w.nodes && w.nodes[m].journal.tx == t
  }

  lemma WelcomePrepares(w: World)
    requires Enabled(w, Send) && w.coord.stage.Preparing? && w.coord.todo[0] in w.nodes && w.coord.tx != NO_TX
    requires var n := w.nodes[w.coord.todo[0]];
             && n.id.cluster == w.cluster && n.id.member == w.coord.todo[0] && JournalInv(n.journal)
             && Welcomes(n, w.coord.tx, w.coord.plans[w.coord.todo[0]])
    ensures Answer(w).1 == Done && Answer(w).0.journal.tx == w.coord.tx && Answer(w).0.id == w.nodes[w.coord.todo[0]].id
  {
  }

  lemma HeldCommits(w: World)
    requires Enabled(w, Send) && w.coord.stage.CommittingAll? && HeldAt(w, w.coord.tx, w.coord.todo[0]) && w.coord.tx != NO_TX
    requires var n := w.nodes[w.coord.todo[0]];
             n.id.cluster == w.cluster && n.id.member == w.coord.todo[0] && JournalInv(n.journal)
    ensures Answer(w).1 == Done && Answer(w).0.journal.tx == w.coord.tx
  {
  }

  lemma CoordMembers(w: World)
    requires Inv(w) && w.coord.Busy?
    ensures w.coord.tx in w.members && w.durable.Some?
    ensures forall m :: m in w.coord.members ==> m in w.nodes
    ensures forall m :: m in w.coord.todo ==> m in w.coord.members
    ensures w.coord.stage.Preparing? ==> Distinct(w.coord.todo)
  {
  }

  /** Every member that is still to be asked welcomes its plan: then all prepare. */
  lemma {:induction false} AllPrepare(w: World) returns (w': World, steps: seq<Step>)
    requires Inv(w) && w.coord.Busy? && w.coord.stage.Preparing? && w.coord.waiting.None?
    requires forall m :: m in w.coord.todo ==> m in w.nodes && m in w.coord.plans && Welcomes(w.nodes[m], w.coord.tx, w.coord.plans[m])
    requires forall m :: m in w.coord.members && m !in w.coord.todo ==> HeldAt(w, w.coord.tx, m)
    ensures Runnable(w, steps) && w' == RunWorld(w, steps) && Inv(w') && (forall step :: step in steps ==> Honest(step))
    ensures w'.coord == w.coord.(todo := []) && forall m :: m in w.coord.members ==> HeldAt(w', w.coord.tx, m)
    decreases |w.coord.todo|
  {
    hide Execute;
    hide Welcomes;
    hide JournalInv;
    hide Next;
    var c := w.coord;
    CoordMembers(w);
    if c.todo == [] {
      w', steps := w, [];
    } else {
      NodeOf(w, c.todo[0]);
      WelcomePrepares(w);
      var w1, asked := Ask(w);
      RunKeepsInv(w, asked);
      hide Inv;
      Rest(c.todo);
      var w2, more := AllPrepare(w1);
      RunOn(w, asked, more);
      w', steps := w2, asked + more;
    }
  }

  lemma Rest(todo: seq<Member>)
    requires todo != [] && Distinct(todo)
    ensures forall m :: m in todo[1..] ==> m in todo && m != todo[0]
    ensures forall m :: m in todo ==> m == todo[0] || m in todo[1..]
  {
  }

  /** Everybody holds the transaction: then all commit. */
  lemma {:induction false} AllCommit(w: World) returns (w': World, steps: seq<Step>)
    requires Inv(w) && w.coord.Busy? && w.coord.stage.CommittingAll? && w.coord.waiting.None?
    requires forall m :: m in w.coord.members ==> HeldAt(w, w.coord.tx, m)
    ensures Runnable(w, steps) && w' == RunWorld(w, steps) && Inv(w') && (forall step :: step in steps ==> Honest(step))
    ensures w'.coord == w.coord.(todo := [])
    decreases |w.coord.todo|
  {
    hide Execute;
    hide JournalInv;
    hide Next;
    hide Question;
    var c := w.coord;
    CoordMembers(w);
    if c.todo == [] {
      w', steps := w, [];
    } else {
      NodeOf(w, c.todo[0]);
      HeldCommits(w);
      var w1, asked := Ask(w);
      RunKeepsInv(w, asked);
      hide Inv;
      var w2, more := AllCommit(w1);
      RunOn(w, asked, more);
      w', steps := w2, asked + more;
    }
  }

  /** From a rollout that has begun to one that everybody has prepared. */
  lemma WellRolloutPrepares(w: World, start: Step) returns (w': World, steps: seq<Step>)
    requires Inv(w) && start.Start? && start.save == Saved && Enabled(w, start)
    requires forall m :: m in start.members ==> Welcomes(w.nodes[m], start.tx, start.plans[m])
    ensures Runnable(w, steps) && w' == RunWorld(w, steps) && Inv(w') && (forall step :: step in steps ==> Honest(step))
    ensures w'.coord == Busy(start.tx, start.members, start.master, start.plans, Preparing, [], None, false)
    ensures forall m :: m in start.members ==> HeldAt(w', start.tx, m)
  {
    hide Execute;
    hide Welcomes;
    NextKeepsInv(w, start);
    OneStep(w, start);
    var w1 := Next(w, start);
    assert w1.nodes == w.nodes && w1.coord == Busy(start.tx, start.members, start.master, start.plans, Preparing, start.members, None, false);
    hide Inv;
    hide Next;
    var w2, prepares := AllPrepare(w1);
    RunOn(w, [start], prepares);
    w', steps := w2, [start] + prepares;
  }

  lemma AdvanceKeepsInv(w: World) returns (w': World)
    requires Inv(w) && Enabled(w, Advance)
    ensures Runnable(w, [Advance]) && w' == RunWorld(w, [Advance]) && Inv(w') && w'.nodes == w.nodes
    ensures w'.coord.Busy? && w'.coord.tx == w.coord.tx && w'.coord.members == w.coord.members && w'.coord.waiting.None?
    ensures w'.coord.stage == if w.coord.stage.Preparing? then CommittingAll else Deciding
  {
    NextKeepsInv(w, Advance);
    hide Inv;
    OneStep(w, Advance);
    w' := Next(w, Advance);
  }

  /** From there to the decision. */
  lemma PreparedRolloutDecides(w: World) returns (w': World, steps: seq<Step>)
    requires Inv(w) && w.coord.Busy? && w.coord.stage.Preparing? && w.coord.waiting.None? && w.coord.todo == []
    requires forall m :: m in w.coord.members ==> HeldAt(w, w.coord.tx, m)
    ensures Runnable(w, steps) && w' == RunWorld(w, steps) && Inv(w') && (forall step :: step in steps ==> Honest(step))
    ensures Enabled(w', Decide(SavedThenError)) && w'.coord.tx == w.coord.tx && w'.coord.members == w.coord.members
  {
    hide Inv;
    hide Runnable;
    hide RunWorld;
    var w1 := AdvanceKeepsInv(w);
    var w2, commits := AllCommit(w1);
    RunOn(w, [Advance], commits);
    var w3 := AdvanceKeepsInv(w2);
    RunOn(w, [Advance] + commits, [Advance]);
    w', steps := w3, [Advance] + commits + [Advance];
    CoordMembers(w');
  }

  /** A rollout whose members welcome their plans reaches its decision, by honest steps. */
  lemma WellRolloutDecides(w: World, start: Step) returns (w': World, steps: seq<Step>)
    requires Inv(w) && start.Start? && start.save == Saved && Enabled(w, start)
    requires forall m :: m in start.members ==> Welcomes(w.nodes[m], start.tx, start.plans[m])
    ensures Runnable(w, steps) && w' == RunWorld(w, steps) && Inv(w') && (forall step :: step in steps ==> Honest(step))
    ensures Enabled(w', Decide(SavedThenError)) && w'.coord.tx == start.tx && w'.coord.members == start.members
  {
    hide Inv;
    hide Welcomes;
    var w1, first := WellRolloutPrepares(w, start);
    var w2, second := PreparedRolloutDecides(w1);
    RunOn(w, first, second);
    w', steps := w2, first + second;
  }

  // ------------------------------------------------------------------------------------------
  // A dishonest decision can always split
  // ------------------------------------------------------------------------------------------

  /** Commits end as the decision says. */
  lemma CommittedEnds(w: World)
    requires Enabled(w, Send) && w.coord.stage.Finishing? && w.coord.todo[0] in w.nodes
    requires var n := w.nodes[w.coord.todo[0]];
             && n.journal.tx == w.coord.tx && n.journal.phase == Committed && w.coord.tx != NO_TX
             && n.id.cluster == w.cluster && n.id.member == w.coord.todo[0]
    ensures Answer(w).1 == Done && Answer(w).0.journal.tx == NO_TX
    ensures Answer(w).0.journal.lastOutcome == if w.coord.stage.decision.ToRollback? then RolledBack else Finalized
    ensures Answer(w).0.journal.lastTx == w.coord.tx && Answer(w).0.id == w.nodes[w.coord.todo[0]].id
    ensures w.coord.stage == Finishing(ToFinalize) ==>
              Answer(w).0.running == w.nodes[w.coord.todo[0]].running && Answer(w).0.journal.active == w.nodes[w.coord.todo[0]].journal.active
  {
  }

  /** The two members of the transaction on disk have committed and nobody asks them anything. */
  ghost predicate Awaits(w: World, t: Tx, members: seq<Member>, decision: Decision, m: Member) {
    && t != NO_TX && |members| >= 2 && members[0] != members[1]
    && w.durable == Some(Rollout(t, members, decision))
    && CommittedAt(w, t, m) && w.nodes[m].id.cluster == w.cluster && w.nodes[m].id.member == m
  }

  predicate HasRolledBack(w: World, t: Tx, m: Member) {
    && m in w.nodes && w.nodes[m].id.cluster == w.cluster && w.nodes[m].id.member == m
    && w.nodes[m].journal.tx == NO_TX && w.nodes[m].journal.lastTx == t && w.nodes[m].journal.lastOutcome == RolledBack
  }

  /** A member that has rolled back refuses to finalize. */
  lemma RolledBackRefuses(w: World)
    requires Enabled(w, Send) && w.coord.stage == Finishing(ToFinalize) && w.coord.tx != NO_TX && HasRolledBack(w, w.coord.tx, w.coord.todo[0])
    ensures Answer(w) == (w.nodes[w.coord.todo[0]], Refused)
  {
  }

  /** A decision to roll back that is on disk as "finalize" reaches the first member. */
  lemma FirstRolledBack(w: World) returns (w': World, steps: seq<Step>)
    requires Inv(w) && Enabled(w, Decide(SavedThenError)) && |w.coord.members| >= 2
    ensures steps != [] && steps[0] == Decide(SavedThenError) && Runnable(w, steps) && w' == RunWorld(w, steps)
    ensures Entry(w.coord.members[0], w.coord.tx, RolledBack) in w'.log
    ensures Awaits(w', w.coord.tx, w.coord.members, ToFinalize, w.coord.members[1])
    ensures HasRolledBack(w', w.coord.tx, w.coord.members[0])
  {
    hide Execute;
    BothCommitted(w, w.coord.members[0], w.coord.members[1]);
    hide Inv;
    w', steps := Add(w, w, [], Decide(SavedThenError));
    CommittedEnds(w');
    w', steps := AskNext(w, w', steps);
  }

  /** A recover run that the first member refuses finalizes the second one. */
  lemma SecondFinalized(w: World, t: Tx, members: seq<Member>) returns (w': World, steps: seq<Step>)
    requires |members| >= 2 && Awaits(w, t, members, ToFinalize, members[1]) && HasRolledBack(w, t, members[0])
    ensures Runnable(w, steps) && w' == RunWorld(w, steps)
    ensures w.log <= w'.log && Entry(members[1], t, Finalized) in w'.log
  {
    hide Execute;
    w', steps := Add(w, w, [], CrashCoordinator);
    w', steps := Add(w, w', steps, Recover(members[0]));
    RolledBackRefuses(w');
    var asking := w';
    w', steps := Add(w, w', steps, Send);
    w', steps := Add(w, w', steps, Deliver(Question(asking), ALL_WELL, true));
    CommittedEnds(w');
    w', steps := AskNext(w, w', steps);
  }

  /**
   From every state in which the decision about two or more members is due: if it is saved
   dishonestly, the first member can be rolled back before the coordinator stops, and a recover run
   finalizes the second one.
   */
  lemma SplitFromAnyDecision(w: World) returns (w': World, steps: seq<Step>)
    requires Inv(w) && Enabled(w, Decide(SavedThenError)) && |w.coord.members| >= 2
    ensures steps != [] && steps[0] == Decide(SavedThenError) && Runnable(w, steps) && w' == RunWorld(w, steps)
    ensures Entry(w.coord.members[0], w.coord.tx, RolledBack) in w'.log
    ensures Entry(w.coord.members[1], w.coord.tx, Finalized) in w'.log
  {
    var t, members := w.coord.tx, w.coord.members;
    var w1, first := FirstRolledBack(w);
    var w2, second := SecondFinalized(w1, t, members);
    RunOn(w, first, second);
    w', steps := w2, first + second;
  }

  lemma BothCommitted(w: World, a: Member, b: Member)
    requires Inv(w) && w.coord.Busy? && w.coord.stage.Deciding? && |w.coord.members| >= 2
    requires a == w.coord.members[0] && b == w.coord.members[1]
    ensures a != b && w.coord.tx != NO_TX && w.durable.Some? && w.durable.value.members == w.coord.members && w.durable.value.tx == w.coord.tx
    ensures forall m :: m in {a, b} ==>
              CommittedAt(w, w.coord.tx, m) && w.nodes[m].id.cluster == w.cluster && w.nodes[m].id.member == m
  {
  }

  /** The decision can split its transaction exactly when its save is dishonest and there are two members. */
  lemma DecisionSplits(w: World, save: Save)
    requires Inv(w) && Enabled(w, Decide(save))
    ensures (exists rest :: Runnable(w, [Decide(save)] + rest) && Split(RunWorld(w, [Decide(save)] + rest), w.coord.tx))
       <==> save == SavedThenError && |w.coord.members| >= 2
  {
    hide Inv;
    hide Runnable;
    hide RunWorld;
    hide Split;
    var t, n := w.coord.tx, |w.coord.members|;
    hide Enabled;
    if save == SavedThenError && n >= 2 {
      DishonestySplits(w);
    }
    forall rest | Runnable(w, [Decide(save)] + rest) && Split(RunWorld(w, [Decide(save)] + rest), t)
      ensures save == SavedThenError && n >= 2
    {
      HonestyNeverSplits(w, save, rest);
      OneMemberNeverSplits(w, save, rest);
    }
  }

  lemma DishonestySplits(w: World)
    requires Inv(w) && Enabled(w, Decide(SavedThenError)) && |w.coord.members| >= 2
    ensures exists rest ::
              Runnable(w, [Decide(SavedThenError)] + rest) && Split(RunWorld(w, [Decide(SavedThenError)] + rest), w.coord.tx)
  {
    var t := w.coord.tx;
    hide Inv;
    hide Enabled;
    hide Runnable;
    hide RunWorld;
    var w', steps := SplitFromAnyDecision(w);
    assert steps == [Decide(SavedThenError)] + steps[1..];
    assert Split(w', t);
  }

  lemma HonestyNeverSplits(w: World, save: Save, rest: seq<Step>)
    requires Inv(w) && Enabled(w, Decide(save)) && Runnable(w, [Decide(save)] + rest)
    ensures save != SavedThenError ==> !Split(RunWorld(w, [Decide(save)] + rest), w.coord.tx)
  {
    var t := w.coord.tx;
    HonestyStays(w, save, rest);
    hide Inv;
    hide Enabled;
    hide Runnable;
    hide RunWorld;
    hide Split;
    if save != SavedThenError {
      UnbetrayedIsWhole(RunWorld(w, [Decide(save)] + rest), t);
    }
  }

  lemma UnbetrayedIsWhole(w: World, t: Tx)
    requires Inv(w) && t !in w.betrayed
    ensures !Split(w, t)
  {
  }

  lemma OneMemberNeverSplits(w: World, save: Save, rest: seq<Step>)
    requires Inv(w) && Enabled(w, Decide(save)) && Runnable(w, [Decide(save)] + rest)
    requires Split(RunWorld(w, [Decide(save)] + rest), w.coord.tx)
    ensures |w.coord.members| >= 2
  {
    var t, steps := w.coord.tx, [Decide(save)] + rest;
    DecidingEndsOnce(w);
    assert w.members[t] == w.coord.members;
    hide Inv;
    hide Runnable;
    hide RunWorld;
    RunEndsOnce(w, steps, t);
    var a, b :| Entry(a, t, RolledBack) in RunWorld(w, steps).log && Entry(b, t, Finalized) in RunWorld(w, steps).log;
    TwoOf(w.coord.members, a, b);
  }

  lemma TwoOf(members: seq<Member>, a: Member, b: Member)
    requires a in members && b in members
    ensures a != b ==> |members| >= 2
  {
  }

  /** So every rollout of a cluster over two members or more, if they welcome their plans, has a run that splits it. */
  lemma AnyRolloutCanSplit(w: World, start: Step) returns (w': World, steps: seq<Step>)
    requires Initial(w) && start.Start? && start.save == Saved && Enabled(w, start) && |start.members| >= 2
    requires forall m :: m in start.members ==> Welcomes(w.nodes[m], start.tx, start.plans[m])
    ensures Runnable(w, steps) && w' == RunWorld(w, steps) && Split(w', start.tx)
  {
    InitialInv(w);
    hide Inv;
    hide Initial;
    hide Enabled;
    hide Welcomes;
    var w1, well := WellRolloutDecides(w, start);
    var w2, split := SplitFromAnyDecision(w1);
    RunOn(w, well, split);
    w', steps := w2, well + split;
  }

  // ------------------------------------------------------------------------------------------
  // A dishonest decision can strand a member
  // ------------------------------------------------------------------------------------------

  /** The member has finalized the transaction last, has no other open, and does not run its active plan. */
  predicate Stranded(w: World, m: Member, t: Tx) {
    && m in w.nodes && w.nodes[m].journal.tx == NO_TX && w.nodes[m].journal.lastTx == t
    && w.nodes[m].journal.lastOutcome == Finalized && !RunsActive(w.nodes[m])
  }

  /** A rollback whose apply and restore fail. */
  const ALL_FAILS := Env(true, true, Saved, Apply(Failed, Failed), Saved)

  /** A member in the middle of a commit that nobody asks anything, and of which nobody knows what it runs. */
  ghost predicate HalfUndone(w: World, t: Tx, members: seq<Member>) {
    && t != NO_TX && members != []
    && w.durable == Some(Rollout(t, members, ToFinalize))
    && CommittedAt(w, t, members[0]) && w.nodes[members[0]].id.cluster == w.cluster && w.nodes[members[0]].id.member == members[0]
    && w.nodes[members[0]].running == Unknown
  }

  lemma FailedRollback(n: Node, r: Request)
    requires r.op == Rollback && r.plan.None? && r.tx != NO_TX && r.cluster == n.id.cluster && r.member == n.id.member
    requires n.journal.tx == r.tx && n.journal.phase == Committed
    ensures Execute(n, r, ALL_FAILS) == (n.(running := Unknown), Refused)
  {
  }

  lemma RollbackFails(w: World) returns (w': World, steps: seq<Step>)
    requires Inv(w) && Enabled(w, Decide(SavedThenError))
    ensures steps != [] && steps[0] == Decide(SavedThenError) && Runnable(w, steps) && w' == RunWorld(w, steps)
    ensures HalfUndone(w', w.coord.tx, w.coord.members)
  {
    FirstCommitted(w);
    hide Inv;
    w', steps := Add(w, w, [], Decide(SavedThenError));
    var asking := w';
    FailedRollback(w'.nodes[w.coord.members[0]], RequestOf(w.cluster, Question(w')));
    hide Execute;
    w', steps := Add(w, w', steps, Send);
    w', steps := Add(w, w', steps, Deliver(Question(asking), ALL_FAILS, true));
  }

  lemma FirstCommitted(w: World)
    requires Inv(w) && w.coord.Busy? && w.coord.stage.Deciding?
    ensures w.coord.members != [] && w.coord.tx != NO_TX
    ensures w.durable.Some? && w.durable.value.members == w.coord.members && w.durable.value.tx == w.coord.tx
    ensures var m := w.coord.members[0]; CommittedAt(w, w.coord.tx, m) && w.nodes[m].id.cluster == w.cluster && w.nodes[m].id.member == m
  {
  }

  /** The recover run finalizes the member as it is. */
  lemma FinalizedHalfUndone(w: World, t: Tx, members: seq<Member>) returns (w': World, steps: seq<Step>)
    requires HalfUndone(w, t, members)
    ensures Runnable(w, steps) && w' == RunWorld(w, steps) && Stranded(w', members[0], t)
  {
    hide Execute;
    w', steps := Add(w, w, [], CrashCoordinator);
    w', steps := Add(w, w', steps, Recover(members[0]));
    CommittedEnds(w');
    w', steps := AskNext(w, w', steps);
  }

  /**
   From every state in which a decision is due: if it is saved dishonestly, a member can fail to roll
   back and then be finalized by a recover run, running who knows what without an open transaction.
   */
  lemma StrandedFromAnyDecision(w: World) returns (w': World, steps: seq<Step>)
    requires Inv(w) && Enabled(w, Decide(SavedThenError))
    ensures steps != [] && steps[0] == Decide(SavedThenError) && Runnable(w, steps) && w' == RunWorld(w, steps)
    ensures Stranded(w', w.coord.members[0], w.coord.tx)
  {
    FirstCommitted(w);
    hide Inv;
    var t, members := w.coord.tx, w.coord.members;
    var w1, first := RollbackFails(w);
    var w2, second := FinalizedHalfUndone(w1, t, members);
    RunOn(w, first, second);
    w', steps := w2, first + second;
  }

  /** The decision can strand a member, whatever their number, exactly when its save is dishonest. */
  lemma DecisionStrands(w: World, save: Save)
    requires Inv(w) && Enabled(w, Decide(save))
    ensures (exists rest, m :: Runnable(w, [Decide(save)] + rest) && Stranded(RunWorld(w, [Decide(save)] + rest), m, w.coord.tx))
       <==> save == SavedThenError
  {
    hide Inv;
    hide Runnable;
    hide RunWorld;
    hide Stranded;
    var t := w.coord.tx;
    if save == SavedThenError {
      DishonestyStrands(w);
    }
    hide Enabled;
    forall rest, m | Runnable(w, [Decide(save)] + rest) && Stranded(RunWorld(w, [Decide(save)] + rest), m, t)
      ensures save == SavedThenError
    {
      HonestyStays(w, save, rest);
      UnbetrayedIsWell(RunWorld(w, [Decide(save)] + rest), m, t);
    }
  }

  lemma DishonestyStrands(w: World)
    requires Inv(w) && Enabled(w, Decide(SavedThenError))
    ensures exists rest, m ::
              Runnable(w, [Decide(SavedThenError)] + rest) && Stranded(RunWorld(w, [Decide(SavedThenError)] + rest), m, w.coord.tx)
  {
    var t := w.coord.tx;
    hide Inv;
    hide Enabled;
    hide Runnable;
    hide RunWorld;
    hide Stranded;
    var w', steps := StrandedFromAnyDecision(w);
    assert steps == [Decide(SavedThenError)] + steps[1..];
  }

  lemma UnbetrayedIsWell(w: World, m: Member, t: Tx)
    requires Inv(w) && t in w.members
    ensures t !in w.betrayed ==> !Stranded(w, m, t)
  {
    if m in w.nodes {
      NodeRuns(w, m);
    }
  }
}
