/**
 Getting out again. A pass over the members that ends a rollout reaches everybody it can, whoever does
 not answer; a recover run that reaches all of them closes the rollout, and one that does not leaves the
 decision on disk for the next.
 */
module MeshRecovery {
  import opened Wrappers
  import opened MeshAgent
  import opened MeshRollout
  import opened MeshSplit

  /** The member has the transaction open in a phase that can end this way, or is done with it. */
  predicate CanEnd(n: Node, t: Tx, d: Decision) {
    match d
    case ToRollback => n.journal.tx == t || (n.journal.tx == NO_TX && (n.journal.lastTx == t ==> n.journal.lastOutcome == RolledBack))
    case ToFinalize =>
      || (n.journal.tx == t && n.journal.phase == Committed)
      || (n.journal.tx == NO_TX && n.journal.lastTx == t && n.journal.lastOutcome == Finalized)
  }

  /** The member has no transaction open, and this one did not end otherwise; a finalized one has ended here. */
  predicate HasEnded(n: Node, t: Tx, d: Decision) {
    && n.journal.tx == NO_TX
    && (n.journal.lastTx == t ==> n.journal.lastOutcome == if d.ToRollback? then RolledBack else Finalized)
    && (d.ToFinalize? ==> n.journal.lastTx == t)
  }

  lemma EndsWhenAsked(w: World)
    requires Enabled(w, Send) && w.coord.stage.Finishing? && w.coord.todo[0] in w.nodes && w.coord.tx != NO_TX
    requires var n := w.nodes[w.coord.todo[0]];
             && n.id.cluster == w.cluster && n.id.member == w.coord.todo[0] && JournalInv(n.journal)
             && CanEnd(n, w.coord.tx, w.coord.stage.decision)
    ensures Answer(w).1 == Done && HasEnded(Answer(w).0, w.coord.tx, w.coord.stage.decision)
  {
  }

  /** A request that is not answered is given up, and the next member is asked. */
  lemma Skip(w: World) returns (w': World, steps: seq<Step>)
    requires Enabled(w, Send) && w.coord.stage.Finishing?
    ensures Runnable(w, steps) && w' == RunWorld(w, steps)
    ensures w'.nodes == w.nodes && w'.coord == w.coord.(todo := w.coord.todo[1..], failed := true)
    ensures w'.durable == w.durable && w'.closed == w.closed
  {
    OneStep(w, Send);
    OneStep(AfterSend(w), Timeout);
    RunOn(w, [Send], [Timeout]);
    w', steps := Next(AfterSend(w), Timeout), [Send] + [Timeout];
  }

  predicate SomeLost(todo: seq<Member>, lost: set<Member>) {
    exists m :: m in todo && m in lost
  }

  /** What a pass leaves: everybody in `todo` that answers has ended, and nobody else has changed. */
  ghost predicate Passed(w: World, w': World, t: Tx, d: Decision, todo: seq<Member>, lost: set<Member>) {
    && w'.nodes.Keys == w.nodes.Keys && w'.durable == w.durable && w'.closed == w.closed
    && (forall m :: m in w.nodes && !(m in todo && m !in lost) ==> w'.nodes[m] == w.nodes[m])
    && (forall m :: m in w.nodes && m in todo && m !in lost ==> HasEnded(w'.nodes[m], t, d))
  }

  lemma PassOn(w: World, w1: World, w': World, t: Tx, d: Decision, todo: seq<Member>, lost: set<Member>)
    requires todo != [] && Passed(w1, w', t, d, todo[1..], lost) && FirstPassed(w, w1, t, d, todo[0], lost)
    ensures Passed(w, w', t, d, todo, lost)
  {
    hide HasEnded;
    assert forall m :: m in todo <==> m == todo[0] || m in todo[1..];
  }

  /** The same of one member. */
  ghost predicate FirstPassed(w: World, w': World, t: Tx, d: Decision, m: Member, lost: set<Member>) {
    && m in w.nodes && w'.nodes.Keys == w.nodes.Keys && w'.durable == w.durable && w'.closed == w.closed
    && (forall x :: x in w.nodes && (x != m || m in lost) ==> w'.nodes[x] == w.nodes[x])
    && (m !in lost ==> HasEnded(w'.nodes[m], t, d))
  }

  /** One member is asked, and its answer is heard or not. */
  lemma FirstOfPass(w: World, lost: set<Member>) returns (w': World, steps: seq<Step>)
    requires Inv(w) && w.coord.Busy? && w.coord.stage.Finishing? && w.coord.waiting.None? && w.coord.todo != []
    requires w.coord.todo[0] !in lost ==> w.coord.todo[0] in w.nodes && CanEnd(w.nodes[w.coord.todo[0]], w.coord.tx, w.coord.stage.decision)
    ensures Runnable(w, steps) && w' == RunWorld(w, steps) && Inv(w')
    ensures w'.coord == w.coord.(todo := w.coord.todo[1..], failed := w.coord.failed || w.coord.todo[0] in lost)
    ensures FirstPassed(w, w', w.coord.tx, w.coord.stage.decision, w.coord.todo[0], lost)
  {
    hide Inv;
    hide Execute;
    hide JournalInv;
    hide CanEnd;
    hide HasEnded;
    NextMember(w);
    if w.coord.todo[0] in lost {
      w', steps := Skip(w);
    } else {
      EndsWhenAsked(w);
      w', steps := Ask(w);
    }
    RunKeepsInv(w, steps);
    hide Inv;
    hide Next;
    hide Answer;
  }

  lemma EndedCanEnd(w: World, w': World, t: Tx, d: Decision, todo: seq<Member>, lost: set<Member>)
    requires todo != [] && FirstPassed(w, w', t, d, todo[0], lost)
    requires forall m :: m in todo && m !in lost ==> m in w.nodes && CanEnd(w.nodes[m], t, d)
    ensures forall m :: m in todo[1..] && m !in lost ==> m in w'.nodes && CanEnd(w'.nodes[m], t, d)
  {
    assert HasEnded(w'.nodes[todo[0]], t, d) ==> CanEnd(w'.nodes[todo[0]], t, d);
    hide CanEnd;
    hide HasEnded;
  }

  /**
   One pass over the members that are left, with any of them not answering: all the others have ended
   the transaction as decided, the pass comes to its end, and it is marked as failed exactly if
   somebody was lost.
   */
  lemma {:induction false} PassReachesTheRest(w: World, lost: set<Member>) returns (w': World, steps: seq<Step>)
    requires Inv(w) && w.coord.Busy? && w.coord.stage.Finishing? && w.coord.waiting.None?
    requires forall m :: m in w.coord.todo && m !in lost ==> m in w.nodes && CanEnd(w.nodes[m], w.coord.tx, w.coord.stage.decision)
    ensures Runnable(w, steps) && w' == RunWorld(w, steps) && Inv(w')
    ensures w'.coord == w.coord.(todo := [], failed := w.coord.failed || SomeLost(w.coord.todo, lost))
    ensures Passed(w, w', w.coord.tx, w.coord.stage.decision, w.coord.todo, lost)
    decreases |w.coord.todo|
  {
    hide Inv;
    hide CanEnd;
    var c := w.coord;
    if c.todo == [] {
      w', steps := w, [];
    } else {
      var w1, first := FirstOfPass(w, lost);
      EndedCanEnd(w, w1, c.tx, c.stage.decision, c.todo, lost);
      var more;
      w', more := PassReachesTheRest(w1, lost);
      RunOn(w, first, more);
      steps := first + more;
      PassOn(w, w1, w', c.tx, c.stage.decision, c.todo, lost);
      MoreLost(c.todo, lost);
    }
    hide Next;
    hide Runnable;
    hide RunWorld;
    hide FirstPassed;
  }

  lemma MoreLost(todo: seq<Member>, lost: set<Member>)
    requires todo != []
    ensures SomeLost(todo, lost) <==> todo[0] in lost || SomeLost(todo[1..], lost)
  {
    assert forall m :: m in todo <==> m == todo[0] || m in todo[1..];
  }

  /** Who is asked next. */
  lemma NextMember(w: World)
    requires Inv(w) && w.coord.Busy? && w.coord.todo != []
    ensures w.coord.tx != NO_TX && w.coord.todo[0] in w.nodes
    ensures var n := w.nodes[w.coord.todo[0]]; n.id.cluster == w.cluster && n.id.member == w.coord.todo[0] && JournalInv(n.journal)
  {
    CoordMembers(w);
    NodeOf(w, w.coord.todo[0]);
  }

  lemma RecoverBegins(w: World, master: Member) returns (w': World)
    requires Inv(w) && Enabled(w, Recover(master))
    ensures Inv(w') && Runnable(w, [Recover(master)]) && w' == RunWorld(w, [Recover(master)])
    ensures w' == w.(coord := w'.coord)
    ensures w'.coord == Busy(w.durable.value.tx, w.durable.value.members, master, map[],
                             Finishing(w.durable.value.decision), w.durable.value.members, None, false)
  {
    NextKeepsInv(w, Recover(master));
    OneStep(w, Recover(master));
    hide Inv;
    w' := Next(w, Recover(master));
  }

  /** What is left when a pass is over: the rollout is closed, or its decision is on disk for the next recover run. */
  ghost predicate Finished(w: World, w': World, lost: set<Member>) {
    && w'.coord.Idle? && w.durable.Some? && w'.nodes.Keys == w.nodes.Keys
    && (forall m :: m in w.durable.value.members && m !in lost ==>
      m in w'.nodes && HasEnded(w'.nodes[m], w.durable.value.tx, w.durable.value.decision))
    && (if SomeLost(w.durable.value.members, lost) then w'.durable == w.durable && w'.closed == w.closed
        else w'.durable.None? && w'.closed == w.closed + {w.durable.value.tx})
  }

  /** The coordinator is about to end the rollout on disk as decided there, and has nobody asked yet. */
  predicate AboutToFinish(w: World) {
    && w.durable.Some? && w.coord.Busy? && w.coord.waiting.None? && !w.coord.failed
    && w.coord.tx == w.durable.value.tx && w.coord.todo == w.durable.value.members && w.coord.stage == Finishing(w.durable.value.decision)
  }

  /** A whole pass, and the save after it. */
  lemma PassFinishes(w: World, lost: set<Member>) returns (w': World, steps: seq<Step>)
    requires Inv(w) && AboutToFinish(w)
    requires forall m :: m in w.coord.todo && m !in lost ==> m in w.nodes && CanEnd(w.nodes[m], w.coord.tx, w.coord.stage.decision)
    ensures Runnable(w, steps) && w' == RunWorld(w, steps) && Inv(w') && Finished(w, w', lost)
  {
    hide Inv;
    hide CanEnd;
    hide HasEnded;
    var w1, pass := PassReachesTheRest(w, lost);
    MembersAreThere(w);
    w', steps := Add(w, w1, pass, Close(Saved));
    RunKeepsInv(w, steps);
    hide SomeLost;
  }

  lemma MembersAreThere(w: World)
    requires Inv(w) && w.durable.Some?
    ensures forall m :: m in w.durable.value.members ==> m in w.nodes
  {
  }

  /**
   A recover run. Whoever it reaches and can end the transaction has ended it as decided; if that is
   everybody the rollout is closed, and if not the decision is still on disk, so the next run can go on.
   */
  lemma RecoverRunReaches(w: World, master: Member, lost: set<Member>) returns (w': World, steps: seq<Step>)
    requires Inv(w) && Enabled(w, Recover(master))
    requires forall m :: m in w.durable.value.members && m !in lost ==>
               m in w.nodes && CanEnd(w.nodes[m], w.durable.value.tx, w.durable.value.decision)
    ensures Runnable(w, steps) && w' == RunWorld(w, steps) && Inv(w') && Finished(w, w', lost)
  {
    hide Inv;
    hide CanEnd;
    var w1 := RecoverBegins(w, master);
    var pass;
    w', pass := PassFinishes(w1, lost);
    RunOn(w, [Recover(master)], pass);
    steps := [Recover(master)] + pass;
    hide HasEnded;
    hide SomeLost;
  }

  lemma DecisionBegins(w: World) returns (w': World)
    requires Inv(w) && Enabled(w, Decide(Saved))
    ensures Inv(w') && Runnable(w, [Decide(Saved)]) && w' == RunWorld(w, [Decide(Saved)]) && AboutToFinish(w')
    ensures w'.nodes == w.nodes && w'.closed == w.closed
    ensures w'.durable == Some(Rollout(w.coord.tx, w.coord.members, ToFinalize))
    ensures forall m :: m in w.coord.members ==> m in w.nodes && CanEnd(w.nodes[m], w.coord.tx, ToFinalize)
  {
    forall m | m in w.coord.members
      ensures m in w.nodes && CanEnd(w.nodes[m], w.coord.tx, ToFinalize)
    {
      assert CommittedAt(w, w.coord.tx, m);
    }
    NextKeepsInv(w, Decide(Saved));
    OneStep(w, Decide(Saved));
    assert w.durable.value.members == w.coord.members && w.durable.value.tx == w.coord.tx;
    hide Inv;
    w' := Next(w, Decide(Saved));
  }

  /**
   From every state in which the decision is due: if it is saved and the members answer, everybody has
   finalized the transaction and the rollout is closed; whoever does not answer can still be recovered.
   */
  lemma DecisionIsCarriedOut(w: World, lost: set<Member>) returns (w': World, steps: seq<Step>)
    requires Inv(w) && Enabled(w, Decide(Saved))
    ensures Runnable(w, steps) && w' == RunWorld(w, steps) && Inv(w') && w'.coord.Idle?
    ensures forall m :: m in w.coord.members && m !in lost ==> m in w'.nodes && HasEnded(w'.nodes[m], w.coord.tx, ToFinalize)
    ensures if SomeLost(w.coord.members, lost) then w'.durable == Some(Rollout(w.coord.tx, w.coord.members, ToFinalize))
            else w'.durable.None? && w.coord.tx in w'.closed
  {
    hide Inv;
    hide CanEnd;
    var w1 := DecisionBegins(w);
    var pass;
    w', pass := PassFinishes(w1, lost);
    RunOn(w, [Decide(Saved)], pass);
    steps := [Decide(Saved)] + pass;
    hide HasEnded;
    hide SomeLost;
  }

  lemma FailureBegins(w: World) returns (w': World)
    requires Inv(w) && Enabled(w, Timeout) && !w.coord.stage.Finishing?
    ensures Inv(w') && Runnable(w, [Timeout]) && w' == RunWorld(w, [Timeout]) && AboutToFinish(w')
    ensures w'.nodes == w.nodes && w'.durable == w.durable && w'.closed == w.closed
    ensures w.durable == Some(Rollout(w.coord.tx, w.coord.members, ToRollback)) && w'.coord.todo == w.coord.members
  {
    NextKeepsInv(w, Timeout);
    OneStep(w, Timeout);
    assert w.durable == Some(Rollout(w.coord.tx, w.coord.members, ToRollback));
    hide Inv;
    w' := Next(w, Timeout);
  }

  /**
   From every state in which a member has not answered while the rollout prepares or commits: all members
   are asked to roll back, not just that one, and whoever answers is back.
   */
  lemma FailureIsRolledBack(w: World, lost: set<Member>) returns (w': World, steps: seq<Step>)
    requires Inv(w) && Enabled(w, Timeout) && !w.coord.stage.Finishing?
    requires forall m :: m in w.coord.members && m !in lost ==> m in w.nodes && CanEnd(w.nodes[m], w.coord.tx, ToRollback)
    ensures Runnable(w, steps) && w' == RunWorld(w, steps) && Inv(w') && Finished(w, w', lost)
    ensures w.durable == Some(Rollout(w.coord.tx, w.coord.members, ToRollback))
  {
    hide Inv;
    hide CanEnd;
    var w1 := FailureBegins(w);
    var pass;
    w', pass := PassFinishes(w1, lost);
    RunOn(w, [Timeout], pass);
    steps := [Timeout] + pass;
    hide HasEnded;
    hide SomeLost;
  }

  lemma UnsavedBegins(w: World) returns (w': World)
    requires Inv(w) && Enabled(w, Decide(Unsaved))
    ensures Inv(w') && Runnable(w, [Decide(Unsaved)]) && w' == RunWorld(w, [Decide(Unsaved)]) && AboutToFinish(w')
    ensures w'.nodes == w.nodes && w'.durable == w.durable && w'.closed == w.closed
    ensures w.durable == Some(Rollout(w.coord.tx, w.coord.members, ToRollback)) && w'.coord.todo == w.coord.members
    ensures forall m :: m in w.coord.members ==> m in w.nodes && CanEnd(w.nodes[m], w.coord.tx, ToRollback)
  {
    forall m | m in w.coord.members
      ensures m in w.nodes && CanEnd(w.nodes[m], w.coord.tx, ToRollback)
    {
      assert CommittedAt(w, w.coord.tx, m);
    }
    NextKeepsInv(w, Decide(Unsaved));
    OneStep(w, Decide(Unsaved));
    assert w.durable == Some(Rollout(w.coord.tx, w.coord.members, ToRollback));
    hide Inv;
    w' := Next(w, Decide(Unsaved));
  }

  /** If the decision cannot be saved, everybody who answers is rolled back. */
  lemma UnsavedIsRolledBack(w: World, lost: set<Member>) returns (w': World, steps: seq<Step>)
    requires Inv(w) && Enabled(w, Decide(Unsaved))
    ensures Runnable(w, steps) && w' == RunWorld(w, steps) && Inv(w') && Finished(w, w', lost)
    ensures w.durable == Some(Rollout(w.coord.tx, w.coord.members, ToRollback))
  {
    hide Inv;
    hide CanEnd;
    var w1 := UnsavedBegins(w);
    var pass;
    w', pass := PassFinishes(w1, lost);
    RunOn(w, [Decide(Unsaved)], pass);
    steps := [Decide(Unsaved)] + pass;
    hide HasEnded;
    hide SomeLost;
  }

  /**
   So every rollout over members that welcome their plans can be carried through: everybody has finalized
   it, and it is closed.
   */
  lemma AnyRolloutCanFinish(w: World, start: Step) returns (w': World, steps: seq<Step>)
    requires Inv(w) && start.Start? && start.save == Saved && Enabled(w, start)
    requires forall m :: m in start.members ==> Welcomes(w.nodes[m], start.tx, start.plans[m])
    ensures Runnable(w, steps) && w' == RunWorld(w, steps) && Inv(w') && w'.coord.Idle? && w'.durable.None? && start.tx in w'.closed
    ensures forall m :: m in start.members ==> m in w'.nodes && HasEnded(w'.nodes[m], start.tx, ToFinalize)
  {
    hide Inv;
    hide Welcomes;
    hide HasEnded;
    var w1, first := WellRolloutDecides(w, start);
    var second;
    w', second := DecisionIsCarriedOut(w1, {});
    RunOn(w, first, second);
    steps := first + second;
  }
}
