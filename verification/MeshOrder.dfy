/**
 The order of a rollout, over every run: the decision to roll back is on disk before anything is sent,
 everybody has prepared before anybody commits, and everybody else has committed before the master
 does. The statements are about messages and members, not about the coordinator's lists.
 */
module MeshOrder {
  import opened Wrappers
  import opened MeshAgent
  import opened MeshRollout

  /** The member has taken part in the transaction: it has it open, or has ended it. */
  ghost predicate Joined(w: World, t: Tx, m: Member) {
    m in w.nodes && (w.nodes[m].journal.tx == t || exists o :: Entry(m, t, o) in w.log)
  }

  /** The member has committed the transaction, or has ended it. */
  ghost predicate Past(w: World, t: Tx, m: Member) {
    CommittedAt(w, t, m) || exists o :: Entry(m, t, o) in w.log
  }

  /** The member was told to commit, or has begun to. */
  ghost predicate Commits(w: World, t: Tx, m: Member) {
    || (exists x :: x in w.net && x.op == Commit && x.tx == t && x.target == m)
    || (m in w.nodes && w.nodes[m].journal.tx == t && w.nodes[m].journal.phase != Prepared)
  }

  /** `b` commits before `a`: the master is the last of all, and of the others the later ones come first. */
  predicate Ahead(members: seq<Member>, master: Member, b: Member, a: Member) {
    b != a && b != master && (a == master || exists i, j :: 0 <= i < j < |members| && members[i] == a && members[j] == b)
  }

  predicate InOrder(todo: seq<Member>, members: seq<Member>, master: Member) {
    forall k, l :: 0 <= k < l < |todo| ==> !Ahead(members, master, todo[l], todo[k])
  }

  ghost predicate OrderInv(w: World) {
    && w.masters.Keys == w.members.Keys
    && (forall t :: t in w.members ==> t in w.closed || (w.durable.Some? && w.durable.value.tx == t))
    && (w.coord.Busy? && !w.coord.stage.Finishing? ==>
      && w.coord.tx in w.masters && w.masters[w.coord.tx] == w.coord.master
      && (w.coord.stage.CommittingAll? ==> InOrder(w.coord.todo, w.coord.members, w.coord.master))
      && (forall m :: m in w.coord.members && !(w.coord.stage.Preparing? && m in w.coord.todo) ==> Joined(w, w.coord.tx, m)))
    && (forall t, m :: t in w.commitSent && t in w.members && m in w.members[t] ==> Joined(w, t, m))
    && (forall t, a, b :: t in w.members && t in w.masters && b in w.members[t] && Ahead(w.members[t], w.masters[t], b, a) && Commits(w, t, a) ==>
      Past(w, t, b))
  }

  lemma InitialOrder(w: World)
    requires Initial(w)
    ensures OrderInv(w)
  {
  }

  /** The list of the others is that of the members backwards. */
  lemma {:induction false} Backwards(members: seq<Member>, master: Member, k: nat, l: nat)
    requires k < l < |SlavesReversed(members, master)|
    ensures exists i, j ::
              0 <= i < j < |members| && members[i] == SlavesReversed(members, master)[l] && members[j] == SlavesReversed(members, master)[k]
  {
    var s, rest := SlavesReversed(members, master), SlavesReversed(members[1..], master);
    if l < |rest| {
      Backwards(members[1..], master, k, l);
      var i, j :| 0 <= i < j < |members| - 1 && members[1..][i] == rest[l] && members[1..][j] == rest[k];
      assert members[i + 1] == s[l] && members[j + 1] == s[k];
    } else {
      SlavesReversedMembers(members[1..], master);
      assert rest[k] in rest;
      var j :| 0 <= j < |members| - 1 && members[1..][j] == rest[k];
      assert members[0] == s[l] && members[j + 1] == s[k];
    }
  }

  lemma CommitsAreInOrder(members: seq<Member>, master: Member)
    requires Distinct(members)
    ensures InOrder(CommitOrder(members, master), members, master)
  {
    var slaves, order := SlavesReversed(members, master), CommitOrder(members, master);
    SlavesReversedMembers(members, master);
    forall k, l | 0 <= k < l < |order|
      ensures !Ahead(members, master, order[l], order[k])
    {
      if l < |slaves| {
        assert slaves[k] in slaves;
        Backwards(members, master, k, l);
      }
    }
  }

  // ------------------------------------------------------------------------------------------
  // Every step
  // ------------------------------------------------------------------------------------------

  /** Steps that touch neither members nor network nor history of commits. */
  lemma StillOrdered(w: World, w': World)
    requires OrderInv(w)
    requires w'.nodes == w.nodes && w'.log == w.log && w'.net == w.net && w'.commitSent == w.commitSent
    requires w'.members == w.members && w'.masters == w.masters
    ensures forall t, m :: t in w'.commitSent && t in w'.members && m in w'.members[t] ==> Joined(w', t, m)
    ensures forall t, a, b :: t in w'.members && t in w'.masters && b in w'.members[t] && Ahead(w'.members[t], w'.masters[t], b, a) && Commits(w', t, a) ==>
              Past(w', t, b)
    ensures forall t, m :: Joined(w, t, m) ==> Joined(w', t, m)
  {
    forall t, m
      ensures Joined(w, t, m) == Joined(w', t, m) && Past(w, t, m) == Past(w', t, m) && Commits(w, t, m) == Commits(w', t, m)
    {
    }
  }

  lemma StartKeepsOrder(w: World, step: Step)
    requires Inv(w) && OrderInv(w) && step.Start? && Enabled(w, step)
    ensures OrderInv(Next(w, step))
  {
    var w' := Next(w, step);
    if TookEffect(step.save) {
      NothingOfNew(w, step.tx);
      hide Inv;
      forall t, m
        ensures Joined(w, t, m) == Joined(w', t, m) && Past(w, t, m) == Past(w', t, m) && Commits(w, t, m) == Commits(w', t, m)
      {
      }
      hide Joined;
      hide Past;
      hide Commits;
    }
  }

  /** A transaction that has not been started has left no trace. */
  lemma NothingOfNew(w: World, t: Tx)
    requires Inv(w) && t !in w.members && t != NO_TX
    ensures t !in w.commitSent && forall m :: !Commits(w, t, m)
  {
  }

  lemma SendKeepsOrder(w: World)
    requires Inv(w) && OrderInv(w) && Enabled(w, Send)
    ensures OrderInv(AfterSend(w))
  {
    var w' := AfterSend(w);
    SendingCommit(w);
    hide Inv;
    forall t, m
      ensures Joined(w, t, m) == Joined(w', t, m) && Past(w, t, m) == Past(w', t, m)
      ensures Commits(w', t, m) ==> Commits(w, t, m) || (w.coord.stage.CommittingAll? && t == w.coord.tx && m == w.coord.todo[0])
    {
    }
    hide Joined;
    hide Past;
    hide Commits;
  }

  /** Who is told to commit is the first of those left, and who is not left has committed. */
  lemma SendingCommit(w: World)
    requires Inv(w) && OrderInv(w) && Enabled(w, Send)
    ensures w.coord.stage.CommittingAll? ==>
              forall b :: b in w.coord.members && Ahead(w.coord.members, w.coord.master, b, w.coord.todo[0]) ==> Past(w, w.coord.tx, b)
  {
    if w.coord.stage.CommittingAll? {
      forall b | b in w.coord.members && Ahead(w.coord.members, w.coord.master, b, w.coord.todo[0])
        ensures Past(w, w.coord.tx, b)
      {
        assert b !in w.coord.todo;
        assert CommittedAt(w, w.coord.tx, b);
      }
    }
  }

  lemma OrderedRest(todo: seq<Member>, members: seq<Member>, master: Member)
    requires todo != [] && InOrder(todo, members, master)
    ensures InOrder(todo[1..], members, master)
  {
    hide Ahead;
  }

  /** What an execution does to a member's part in a transaction. */
  lemma ExecutionOrder(n: Node, r: Request, env: Env)
    requires JournalInv(n.journal)
    ensures var (n', reply) := Execute(n, r, env);
            var j, j' := n.journal, n'.journal;
            && (j.tx != NO_TX && j'.tx != j.tx ==> j'.tx == NO_TX)
            && (j.tx != NO_TX && j'.tx == j.tx && j.phase == Committed ==> j'.phase == Committed)
            && (j'.tx != NO_TX && j'.phase != Prepared ==> j'.tx == j.tx && (j.phase != Prepared || (r.op == Commit && r.tx == j.tx)))
            && (reply == Done && r.op == Prepare && r.tx != NO_TX ==> j'.tx == r.tx)
  {
  }

  /** Members only go forward: they join, commit and end. */
  lemma DeliverGoesForward(w: World, message: Message, env: Env, heard: bool)
    requires Inv(w) && Enabled(w, Deliver(message, env, heard))
    ensures var w' := AfterDeliver(w, message, env, heard);
            && (forall t, m :: t != NO_TX && Joined(w, t, m) ==> Joined(w', t, m))
            && (forall t, m :: t != NO_TX && Past(w, t, m) ==> Past(w', t, m))
            && (forall t, m :: t != NO_TX && Commits(w', t, m) ==> Commits(w, t, m))
  {
    var w' := AfterDeliver(w, message, env, heard);
    var n := w.nodes[message.target];
    NodeOf(w, message.target);
    ExecutionOrder(n, RequestOf(w.cluster, message), env);
    hide Execute;
    hide Inv;
    hide JournalInv;
    var n' := w'.nodes[message.target];
    assert n.journal.tx != NO_TX && n'.journal.tx == NO_TX ==> Entry(message.target, n.journal.tx, n'.journal.lastOutcome) in w'.log;
    forall t, m | t != NO_TX && Joined(w, t, m)
      ensures Joined(w', t, m)
    {
    }
    forall t, m | t != NO_TX && Past(w, t, m)
      ensures Past(w', t, m)
    {
    }
    forall t, m | t != NO_TX && Commits(w', t, m)
      ensures Commits(w, t, m)
    {
      assert message in w.net;
    }
  }

  /** What a heard answer does to the coordinator. */
  lemma HeardAnswer(w: World, message: Message, env: Env, heard: bool)
    requires Inv(w) && Enabled(w, Deliver(message, env, heard))
    ensures var w' := AfterDeliver(w, message, env, heard);
            var c, c' := w.coord, w'.coord;
            || c' == c
            || (c'.Busy? && c'.stage.Finishing?)
            || (c.Busy? && c.todo != [] && c' == c.(todo := c.todo[1..], waiting := None) && (c.stage.Preparing? ==> Joined(w', c.tx, c.todo[0])))
  {
    var reply := Execute(w.nodes[message.target], RequestOf(w.cluster, message), env).1;
    NodeOf(w, message.target);
    ExecutionOrder(w.nodes[message.target], RequestOf(w.cluster, message), env);
    if Accepted(w.coord, message, reply, heard) {
      UnheardKeepsInv(w, message, env);
      assert Hears(w, message, env);
      HeardIsAwaited(w, message, env);
      MessageOf(w, message);
    }
    hide Execute;
    hide Inv;
    hide JournalInv;
  }

  lemma DeliverKeepsOrder(w: World, message: Message, env: Env, heard: bool)
    requires Inv(w) && OrderInv(w) && Enabled(w, Deliver(message, env, heard))
    ensures OrderInv(AfterDeliver(w, message, env, heard))
  {
    var w' := AfterDeliver(w, message, env, heard);
    DeliverGoesForward(w, message, env, heard);
    HeardAnswer(w, message, env, heard);
    NoNameless(w);
    assert w'.members == w.members && w'.masters == w.masters && w'.commitSent == w.commitSent && w'.closed == w.closed && w'.durable == w.durable;
    hide AfterDeliver;
    hide Inv;
    hide Joined;
    hide Past;
    hide Commits;
    if w.coord.Busy? && w.coord.todo != [] && w.coord.stage.CommittingAll? {
      OrderedRest(w.coord.todo, w.coord.members, w.coord.master);
    }
    hide Ahead;
    hide InOrder;
    assert w.coord.Busy? && w.coord.todo != [] ==> forall m :: m in w.coord.todo ==> m == w.coord.todo[0] || m in w.coord.todo[1..];
  }

  lemma NoNameless(w: World)
    requires Inv(w)
    ensures NO_TX !in w.members && NO_TX !in w.commitSent && (w.coord.Busy? ==> w.coord.tx in w.members)
  {
  }

  lemma CloseKeepsOrder(w: World, save: Save)
    requires Inv(w) && OrderInv(w) && Enabled(w, Close(save))
    ensures OrderInv(AfterClose(w, save))
  {
    assert w.durable.Some? && w.durable.value.tx == w.coord.tx;
    hide Inv;
    StillOrdered(w, AfterClose(w, save));
    hide Joined;
    hide Past;
    hide Commits;
  }

  lemma AdvanceKeepsOrder(w: World)
    requires Inv(w) && OrderInv(w) && Enabled(w, Advance)
    ensures OrderInv(Next(w, Advance))
  {
    assert Distinct(w.coord.members);
    hide Inv;
    StillOrdered(w, Next(w, Advance));
    CommitsAreInOrder(w.coord.members, w.coord.master);
    hide Ahead;
    hide CommitOrder;
    hide Joined;
    hide Past;
    hide Commits;
    hide InOrder;
  }

  /** A timeout, the decision to finish, a crash and a recovery leave members, network and records alone. */
  lemma QuietKeepsOrder(w: World, step: Step)
    requires OrderInv(w) && Enabled(w, step) && (step.Timeout? || step.Decide? || step.CrashCoordinator? || step.Recover?)
    ensures OrderInv(Next(w, step))
  {
    var w' := Next(w, step);
    StillOrdered(w, w');
    hide Joined;
    hide Past;
    hide Commits;
    hide Ahead;
    hide InOrder;
    assert w'.coord == w.coord || !w'.coord.Busy? || w'.coord.stage.Finishing?;
  }

  lemma NextKeepsOrder(w: World, step: Step)
    requires Inv(w) && OrderInv(w) && Enabled(w, step)
    ensures OrderInv(Next(w, step))
  {
    hide Inv;
    hide OrderInv;
    match step
    case Start(_, _, _, _, _) => StartKeepsOrder(w, step);
    case Send => SendKeepsOrder(w);
    case Deliver(message, env, heard) => DeliverKeepsOrder(w, message, env, heard);
    case Advance => AdvanceKeepsOrder(w);
    case Close(save) => CloseKeepsOrder(w, save);
    case _ => QuietKeepsOrder(w, step);
  }

  lemma {:induction false} RunKeepsOrder(w: World, steps: seq<Step>)
    requires Inv(w) && OrderInv(w) && Runnable(w, steps)
    ensures OrderInv(RunWorld(w, steps))
    decreases |steps|
  {
    hide Inv;
    hide OrderInv;
    if steps != [] {
      NextKeepsOrder(w, steps[0]);
      NextKeepsInv(w, steps[0]);
      RunKeepsOrder(Next(w, steps[0]), steps[1..]);
    }
  }

  // ------------------------------------------------------------------------------------------
  // Over every run
  // ------------------------------------------------------------------------------------------

  /** As long as a rollout is not closed its decision is on disk, so anything sent for it can be recovered. */
  lemma UnfinishedIsDurable(w0: World, steps: seq<Step>, x: Message)
    requires Initial(w0) && Runnable(w0, steps) && x in RunWorld(w0, steps).net
    ensures var w := RunWorld(w0, steps); x.tx in w.closed || (w.durable.Some? && w.durable.value.tx == x.tx)
  {
    InitialInv(w0);
    InitialOrder(w0);
    RunKeepsInv(w0, steps);
    RunKeepsOrder(w0, steps);
    MessageOf(RunWorld(w0, steps), x);
  }

  /** Nobody is told to commit before every member has prepared. */
  lemma AllPrepareFirst(w0: World, steps: seq<Step>, t: Tx, a: Member, b: Member)
    requires Initial(w0) && Runnable(w0, steps)
    requires var w := RunWorld(w0, steps); t in w.members && a in w.members[t] && b in w.members[t] && Commits(w, t, a)
    ensures Joined(RunWorld(w0, steps), t, b)
  {
    InitialInv(w0);
    InitialOrder(w0);
    RunKeepsInv(w0, steps);
    RunKeepsOrder(w0, steps);
    CommitsWereSent(RunWorld(w0, steps), t, a);
  }

  lemma CommitsWereSent(w: World, t: Tx, m: Member)
    requires Inv(w) && t in w.members && Commits(w, t, m)
    ensures t in w.commitSent
  {
  }

  /** Nobody is told to commit, or has begun to, before everyone ahead of it has committed or ended. */
  lemma CommitsInOrder(w0: World, steps: seq<Step>, t: Tx, a: Member, b: Member)
    requires Initial(w0) && Runnable(w0, steps)
    requires var w := RunWorld(w0, steps);
             t in w.members && t in w.masters && b in w.members[t] && Ahead(w.members[t], w.masters[t], b, a) && Commits(w, t, a)
    ensures Past(RunWorld(w0, steps), t, b)
  {
    InitialInv(w0);
    InitialOrder(w0);
    RunKeepsOrder(w0, steps);
  }

  /** So the master commits after every other member of its rollout has committed or ended. */
  lemma MasterCommitsLast(w0: World, steps: seq<Step>, t: Tx, m: Member)
    requires Initial(w0) && Runnable(w0, steps)
    requires var w := RunWorld(w0, steps);
             t in w.members && t in w.masters && m in w.members[t] && m != w.masters[t] && Commits(w, t, w.masters[t])
    ensures Past(RunWorld(w0, steps), t, m)
  {
    CommitsInOrder(w0, steps, t, RunWorld(w0, steps).masters[t], m);
  }

  /** The master on record is the one the rollout was started with. */
  lemma {:induction false} MasterIsRecorded(w: World, start: Step, steps: seq<Step>)
    requires Inv(w) && start.Start? && start.save == Saved && Enabled(w, start) && Runnable(Next(w, start), steps)
    ensures var w' := RunWorld(Next(w, start), steps);
            start.tx in w'.masters && w'.masters[start.tx] == start.master && start.tx in w'.members && w'.members[start.tx] == start.members
  {
    RecordsStay(Next(w, start), steps, start.tx);
  }

  lemma {:induction false} RecordsStay(w: World, steps: seq<Step>, t: Tx)
    requires Runnable(w, steps) && t in w.members && t in w.masters
    ensures var w' := RunWorld(w, steps);
            t in w'.masters && w'.masters[t] == w.masters[t] && t in w'.members && w'.members[t] == w.members[t]
    decreases |steps|
  {
    if steps != [] {
      assert t in Next(w, steps[0]).members && t in Next(w, steps[0]).masters;
      RecordsStay(Next(w, steps[0]), steps[1..], t);
    }
  }
}
