/**
 The per-machine half of the mesh rollout: a durable journal that prepares, commits, rolls back
 and finalizes one configuration plan at a time, surviving crashes between any two saves.

 Transaction identifiers are numbers and 0 stands for the empty string. Everything the program
 cannot decide (a candidate check, a backup, a save, an apply, a crash) is an `Env` value.
 */
module MeshAgent {
  import opened Wrappers

  type Tx = nat
  type Member = nat

  const NO_TX: Tx := 0

  /** A compiled plan; `content` is opaque, `wellFormed` is the verdict of its own validation. */
  datatype Plan = Plan(revision: nat, cluster: nat, member: Member, master: bool, wellFormed: bool, content: nat)

  datatype Phase = Unset | Prepared | Committing | Committed

  datatype Outcome = NoOutcome | Finalized | RolledBack

  datatype Journal = Journal(
    active: Option<Plan>, pending: Option<Plan>, previous: Option<Plan>,
    tx: Tx, phase: Phase, lastTx: Tx, lastOutcome: Outcome)

  /** Who this machine is: `master` says it manages a topology, `approved` is an imported identity. */
  datatype Identity = Identity(cluster: nat, member: Member, master: bool, approved: Option<bool>)

  /** What the proxy process is running: a known plan, or something nobody can vouch for. */
  datatype Running = Runs(plan: Option<Plan>) | Unknown

  datatype Node = Node(id: Identity, journal: Journal, running: Running)

  datatype Op = Status | Prepare | Commit | Rollback | Finalize

  datatype Request = Request(cluster: nat, member: Member, op: Op, tx: Tx, plan: Option<Plan>)

  /** `Lost` is an execution that died before it could answer. */
  datatype Reply = Done | Refused | Lost

  /** A save is atomic, but it can report an error after it took effect, or the process can die around it. */
  datatype Save = Saved | SavedThenError | Unsaved | CrashBefore | CrashAfter

  /** One attempt to make the proxy process run a plan. */
  datatype Attempt = Worked | Failed | Died

  /** An apply, and the attempt to restore that follows if it fails. */
  datatype Apply = Apply(first: Attempt, second: Attempt)

  datatype Env = Env(checkPasses: bool, backupMade: bool, firstSave: Save, apply: Apply, lastSave: Save)

  predicate TookEffect(save: Save) {
    save.Saved? || save.SavedThenError? || save.CrashAfter?
  }

  function ReplyOf(save: Save): Reply {
    match save
    case Saved => Done
    case SavedThenError => Refused
    case Unsaved => Refused
    case CrashBefore => Lost
    case CrashAfter => Lost
  }

  /** The process that runs after an apply of `target` that falls back to `fallback`. */
  function RunningAfter(target: Option<Plan>, fallback: Option<Plan>, apply: Apply): Running {
    if apply.first.Worked? then Runs(target)
    else if apply.first.Failed? && apply.second.Worked? then Runs(fallback)
    else Unknown
  }

  function ApplyReply(apply: Apply): Reply {
    if apply.first.Worked? then Done
    else if apply.first.Died? || apply.second.Died? then Lost
    else Refused
  }

  // ------------------------------------------------------------------------------------------
  // The specification of one execution
  // ------------------------------------------------------------------------------------------

  /** The request passes every check made before the operation is looked at. */
  predicate Admitted(n: Node, r: Request) {
    && r.cluster == n.id.cluster
    && r.member == n.id.member
    && r.op != Status
    && r.tx != NO_TX
    && (r.op != Prepare ==> r.plan.None?)
    && (n.journal.tx == NO_TX || n.journal.tx == r.tx)
    && !(n.journal.tx == NO_TX && n.journal.lastTx == r.tx)
  }

  predicate Acceptable(n: Node, r: Request)
    requires r.plan.Some?
  {
    var p := r.plan.value;
    && p.wellFormed
    && p.cluster == n.id.cluster && p.member == n.id.member
    && n.id.master == p.master
    && (n.id.approved.Some? ==> n.id.approved.value == p.master)
  }

  /** One execution of a request: the node afterwards and the answer that leaves it. */
  function Execute(n: Node, r: Request, env: Env): (Node, Reply) {
    if r.cluster != n.id.cluster || r.member != n.id.member then (n, Refused)
    else if r.op == Status then
      (n, if r.plan.None? && r.tx == NO_TX then Done else Refused)
    else if !Admitted(n, r) then
      (n, if Repeats(n.journal, r) then Done else Refused)
    else
      match r.op
      case Prepare => ExecutePrepare(n, r, env)
      case Commit => ExecuteCommit(n, r, env)
      case Rollback => ExecuteRollback(n, r, env)
      case Finalize => ExecuteFinalize(n, r, env)
      case Status => (n, Refused)
  }

  /** A finished transaction answers a repeat of the request that finished it. */
  predicate Repeats(j: Journal, r: Request) {
    && r.tx != NO_TX && j.tx == NO_TX && j.lastTx == r.tx
    && (r.op != Prepare ==> r.plan.None?)
    && ((r.op == Finalize && j.lastOutcome == Finalized) || (r.op == Rollback && j.lastOutcome == RolledBack))
  }

  function ExecutePrepare(n: Node, r: Request, env: Env): (Node, Reply)
    requires Admitted(n, r) && r.op == Prepare
  {
    var j := n.journal;
    if r.plan.None? || !Acceptable(n, r) then (n, Refused)
    else if j.pending.Some? then (n, if j.pending == r.plan then Done else Refused)
    else if j.active.Some? && r.plan.value.revision <= j.active.value.revision then (n, Refused)
    else if !env.checkPasses || !env.backupMade then (n, Refused)
    else
      var begun := j.(pending := r.plan, previous := j.active, tx := r.tx, phase := Prepared);
      (if TookEffect(env.lastSave) then n.(journal := begun) else n, ReplyOf(env.lastSave))
  }

  function ExecuteCommit(n: Node, r: Request, env: Env): (Node, Reply)
    requires Admitted(n, r) && r.op == Commit
  {
    var j := n.journal;
    if j.tx != r.tx || j.pending.None? then (n, Refused)
    else if j.phase == Committed then (n, Done)
    else
      var logged := j.(phase := Committing);
      var n1 := if TookEffect(env.firstSave) then n.(journal := logged) else n;
      if !env.firstSave.Saved? then (n1, ReplyOf(env.firstSave))
      else
        var n2 := n1.(running := RunningAfter(j.pending, j.previous, env.apply));
        if !env.apply.first.Worked? then (n2, ApplyReply(env.apply))
        else
          var committed := logged.(active := j.pending, phase := Committed);
          (if TookEffect(env.lastSave) then n2.(journal := committed) else n2, ReplyOf(env.lastSave))
  }

  function ExecuteRollback(n: Node, r: Request, env: Env): (Node, Reply)
    requires Admitted(n, r) && r.op == Rollback
  {
    var j := n.journal;
    if j.tx == NO_TX then (n, Done)
    else
      var touched := j.phase == Committing || j.phase == Committed;
      var current := if j.active.None? then j.pending else j.active;
      var n1 := if touched then n.(running := RunningAfter(j.previous, current, env.apply)) else n;
      if touched && !env.apply.first.Worked? then (n1, ApplyReply(env.apply))
      else
        var restored := if touched then j.previous else j.active;
        var closed := j.(active := restored, pending := None, previous := None, tx := NO_TX, phase := Unset,
        lastTx := r.tx, lastOutcome := RolledBack);
        (if TookEffect(env.lastSave) then n1.(journal := closed) else n1, ReplyOf(env.lastSave))
  }

  function ExecuteFinalize(n: Node, r: Request, env: Env): (Node, Reply)
    requires Admitted(n, r) && r.op == Finalize
  {
    var j := n.journal;
    if j.tx != r.tx || j.phase != Committed then (n, Refused)
    else
      var closed := j.(pending := None, previous := None, tx := NO_TX, phase := Unset,
      lastTx := r.tx, lastOutcome := Finalized);
      (if TookEffect(env.lastSave) then n.(journal := closed) else n, ReplyOf(env.lastSave))
  }

  // ------------------------------------------------------------------------------------------
  // The program itself
  // ------------------------------------------------------------------------------------------

  /** The machine's durable state and its proxy process. */
  class Agent {
    const id: Identity
    var journal: Journal
    var running: Running

    constructor (id: Identity, journal: Journal, running: Running)
      ensures this.id == id && this.journal == journal && this.running == running
    {
      this.id, this.journal, this.running := id, journal, running;
    }

    function View(): Node
      reads this
    {
      Node(id, journal, running)
    }

    /** Writes `j` over the durable journal, as far as the save gets. */
    method SaveState(j: Journal, save: Save) returns (reply: Reply)
      modifies this`journal
      ensures journal == if TookEffect(save) then j else old(journal)
      ensures reply == ReplyOf(save)
    {
      if TookEffect(save) {
        journal := j;
      }
      reply := ReplyOf(save);
    }

    /** Tries to make the process run `plan`; after a failure nobody can tell what runs. */
    method ApplyState(plan: Option<Plan>, attempt: Attempt)
      modifies this`running
      ensures running == if attempt.Worked? then Runs(plan) else Unknown
    {
      running := if attempt.Worked? then Runs(plan) else Unknown;
    }

    /** Applies `target` and, when that fails, tries to put `fallback` back. */
    method ApplyCandidate(target: Option<Plan>, fallback: Option<Plan>, apply: Apply) returns (reply: Reply)
      modifies this`running
      ensures running == RunningAfter(target, fallback, apply) && reply == ApplyReply(apply)
    {
      ApplyState(target, apply.first);
      match apply.first {
        case Worked => return Done;
        case Died => return Lost;
        case Failed =>
      }
      ApplyState(fallback, apply.second);
      return if apply.second.Died? then Lost else Refused;
    }

    /** The request handler: `j` is the loaded copy of the journal, edited in place between the saves. */
    method MeshExecute(r: Request, env: Env) returns (reply: Reply)
      modifies this
      ensures (View(), reply) == Execute(old(View()), r, env)
    {
      var j := journal;
      if r.cluster != id.cluster || r.member != id.member {
        return Refused;
      }
      if r.op == Status {
        return if r.plan.Some? || r.tx != NO_TX then Refused else Done;
      }
      if r.tx == NO_TX {
        return Refused;
      }
      if r.op != Prepare && r.plan.Some? {
        return Refused;
      }
      if j.tx != NO_TX && j.tx != r.tx {
        return Refused;
      }
      if j.tx == NO_TX && j.lastTx == r.tx {
        if (r.op == Finalize && j.lastOutcome == Finalized) || (r.op == Rollback && j.lastOutcome == RolledBack) {
          return Done;
        }
        return Refused;
      }
      match r.op {
        case Prepare =>
          if r.plan.None? || !Acceptable(View(), r) {
            return Refused;
          }
          if j.pending.Some? {
            return if j.pending != r.plan then Refused else Done;
          }
          if j.active.Some? && r.plan.value.revision <= j.active.value.revision {
            return Refused;
          }
          if !env.checkPasses {
            return Refused;
          }
          if !env.backupMade {
            return Refused;
          }
          j := j.(pending := r.plan, previous := j.active, tx := r.tx, phase := Prepared);
        case Commit =>
          if j.tx != r.tx || j.pending.None? {
            return Refused;
          }
          if j.phase == Committed {
            return Done;
          }
          j := j.(phase := Committing);
          var saved := SaveState(j, env.firstSave);
          if saved != Done {
            return saved;
          }
          j := j.(active := j.pending);
          var applied := ApplyCandidate(j.active, j.previous, env.apply);
          if applied != Done {
            return applied;
          }
          j := j.(phase := Committed);
        case Rollback =>
          if j.tx == NO_TX {
            return Done;
          }
          if j.phase == Committing || j.phase == Committed {
            var current := j.active;
            if current.None? {
              current := j.pending;
            }
            j := j.(active := j.previous);
            var applied := ApplyCandidate(j.previous, current, env.apply);
            if applied != Done {
              return applied;
            }
          }
          j := j.(pending := None, previous := None, tx := NO_TX, phase := Unset);
          j := j.(lastTx := r.tx, lastOutcome := RolledBack);
        case Finalize =>
          if j.tx != r.tx || j.phase != Committed {
            return Refused;
          }
          j := j.(pending := None, previous := None, tx := NO_TX, phase := Unset);
          j := j.(lastTx := r.tx, lastOutcome := Finalized);
        case Status =>
          return Refused;
      }
      reply := SaveState(j, env.lastSave);
    }
  }

  // ------------------------------------------------------------------------------------------
  // What every execution keeps
  // ------------------------------------------------------------------------------------------

  /** The transaction clauses that the program checks before it accepts a state. */
  predicate TransactionClauses(j: Journal) {
    && (j.tx != NO_TX ==>
      && j.pending.Some?
      && j.phase != Unset
      && (j.previous.Some? ==> j.pending.value.revision > j.previous.value.revision)
      && (j.phase == Committed ==> j.active.Some? && j.active.value.revision == j.pending.value.revision))
    && (j.tx == NO_TX ==> j.pending.None? && j.previous.None? && j.phase == Unset)
    && (j.lastTx != NO_TX ==> j.lastOutcome != NoOutcome)
  }

  /** What is true of a journal besides: until the commit is logged the old plan is still the active one. */
  predicate JournalInv(j: Journal) {
    && TransactionClauses(j)
    && (j.tx != NO_TX && j.phase != Committed ==> j.active == j.previous)
    && (j.tx != NO_TX && j.phase == Committed ==> j.active == j.pending)
  }

  /** Every journal a request can leave behind, whatever fails, satisfies the clauses of the validator. */
  lemma ExecuteKeepsJournal(n: Node, r: Request, env: Env)
    requires JournalInv(n.journal)
    ensures JournalInv(Execute(n, r, env).0.journal)
    ensures Execute(n, r, env).0.id == n.id
  {
  }

  /** The open transaction of a node changes only by an accepted prepare, a rollback or a finalize of it. */
  lemma OpenTransactionChanges(n: Node, r: Request, env: Env)
    requires JournalInv(n.journal)
    ensures var j, j' := n.journal, Execute(n, r, env).0.journal;
            j'.tx != j.tx ==>
              || (j.tx == NO_TX && r.op == Prepare && j'.tx == r.tx && j'.phase == Prepared && j'.pending == r.plan
                  && j'.active == j.active && j'.previous == j.active && j.lastTx != r.tx)
              || (j.tx == r.tx && j'.tx == NO_TX && j'.lastTx == r.tx
                  && ((r.op == Rollback && j'.lastOutcome == RolledBack && j'.active == j.previous)
                      || (r.op == Finalize && j'.lastOutcome == Finalized && j.phase == Committed && j'.active == j.pending)))
  {
  }

  /**
   What the answer tells about an apply. Done: the process runs the plan that is now active, the new
   one after a commit and the one from before the prepare after a rollback. Any other answer: the
   transaction is open with both plans kept, so that it can still be rolled back, or the rollback is
   on disk and the old plan runs; and what runs is one of the two plans or unknown.
   */
  lemma AnsweredApply(n: Node, r: Request, env: Env)
    requires JournalInv(n.journal) && Admitted(n, r) && n.journal.tx == r.tx
    requires (r.op == Commit && n.journal.phase != Committed) || (r.op == Rollback && n.journal.phase != Prepared)
    ensures var (n', reply) := Execute(n, r, env);
            var j, j' := n.journal, n'.journal;
            && (reply == Done ==>
                  && n'.running == Runs(j'.active)
                  && (if r.op == Commit then j'.phase == Committed && j'.active == j.pending else j'.tx == NO_TX && j'.active == j.previous))
            && (reply != Done ==>
                  if j'.tx == NO_TX then r.op == Rollback && j'.active == j.previous && n'.running == Runs(j.previous)
                  else j'.tx == r.tx && j'.pending == j.pending && j'.previous == j.previous)
            && (n'.running == n.running || n'.running in {Runs(j.pending), Runs(j.previous), Unknown})
  {
  }

  /** The request is meant for this machine, names a transaction, and carries a plan only if it is a prepare. */
  predicate Addressed(n: Node, r: Request) {
    && r.cluster == n.id.cluster && r.member == n.id.member && r.tx != NO_TX
    && r.op != Status && (r.op != Prepare ==> r.plan.None?)
  }

  /** The transaction is open here and the request makes the process run another plan. */
  predicate Reapplies(n: Node, r: Request) {
    && Addressed(n, r) && n.journal.tx == r.tx
    && ((r.op == Commit && n.journal.phase != Committed) || (r.op == Rollback && n.journal.phase != Prepared))
  }

  /** An apply that works runs the pending plan after a commit and the previous one after a rollback, saved or not. */
  lemma WorkedApply(n: Node, r: Request, env: Env)
    requires JournalInv(n.journal) && Reapplies(n, r) && (r.op == Commit ==> env.firstSave == Saved)
    requires env.apply.first == Worked
    ensures Execute(n, r, env).0.running == Runs(if r.op == Commit then n.journal.pending else n.journal.previous)
  {
  }

  /**
   An apply that fails puts back what was there: the previous plan when a commit fails, and the active
   plan (or the pending one, if there is none) when a rollback fails. If that fails too, or the process
   dies, nobody knows what runs. Nothing but the phase of the journal has changed.
   */
  lemma FailedApply(n: Node, r: Request, env: Env)
    requires JournalInv(n.journal) && Reapplies(n, r) && (r.op == Commit ==> env.firstSave == Saved)
    requires env.apply.first != Worked
    ensures var (n', reply) := Execute(n, r, env);
            var j := n.journal;
            && n'.running == (if env.apply != Apply(Failed, Worked) then Unknown
                              else if r.op == Commit then Runs(j.previous)
                              else if j.active.Some? then Runs(j.active)
                              else Runs(j.pending))
            && n'.journal == (if r.op == Commit then j.(phase := Committing) else j)
            && reply == (if env.apply.first == Died || env.apply.second == Died then Lost else Refused)
  {
  }

  /** A commit that cannot be logged is not applied. */
  lemma UnloggedCommit(n: Node, r: Request, env: Env)
    requires JournalInv(n.journal) && Reapplies(n, r) && r.op == Commit && env.firstSave != Saved
    ensures var (n', reply) := Execute(n, r, env);
            && n'.running == n.running && reply != Done
            && n'.journal == (if env.firstSave in {SavedThenError, CrashAfter} then n.journal.(phase := Committing) else n.journal)
  {
  }

  /** Nothing fails. */
  predicate Well(env: Env) {
    env.checkPasses && env.backupMade && env.firstSave == Saved && env.apply.first == Worked && env.lastSave == Saved
  }

  /** The plan is well-formed, of this machine and its role. */
  predicate Own(n: Node, p: Plan) {
    && p.wellFormed && p.cluster == n.id.cluster && p.member == n.id.member
    && n.id.master == p.master && (n.id.approved.Some? ==> n.id.approved.value == p.master)
  }

  /** When nothing fails, this is what each request is answered, and when it is not done nothing changes. */
  lemma AnsweredWhenWell(n: Node, r: Request, env: Env)
    requires JournalInv(n.journal) && Well(env) && Addressed(n, r)
    ensures var j := n.journal;
            var open, idle := j.tx == r.tx, j.tx == NO_TX && j.lastTx != r.tx;
            Execute(n, r, env).1 == Done <==>
            match r.op
            case Prepare =>
              && r.plan.Some? && Own(n, r.plan.value)
              && ((open && j.pending == r.plan)
                  || (idle && (j.active.Some? ==> r.plan.value.revision > j.active.value.revision)))
            case Commit => open
            case Rollback => open || idle || (j.tx == NO_TX && j.lastTx == r.tx && j.lastOutcome == RolledBack)
            case Finalize => (open && j.phase == Committed) || (j.tx == NO_TX && j.lastTx == r.tx && j.lastOutcome == Finalized)
            case Status => false
    ensures Execute(n, r, env).1 != Done ==> Execute(n, r, env) == (n, Refused)
  {
  }

  /** Whatever else has failed, an answer that says done is true. */
  lemma DoneIsDone(n: Node, r: Request, env: Env)
    requires JournalInv(n.journal) && Addressed(n, r) && Execute(n, r, env).1 == Done
    ensures var j, j' := n.journal, Execute(n, r, env).0.journal;
            match r.op
            case Prepare => j'.tx == r.tx && j'.pending == r.plan && (j.tx == NO_TX ==> j'.phase == Prepared && j'.previous == j.active)
            case Commit => j'.tx == r.tx && j'.phase == Committed && j'.active == j.pending
            case Rollback => j'.tx == NO_TX && (j.tx == r.tx ==> j'.lastTx == r.tx && j'.lastOutcome == RolledBack && j'.active == j.previous)
            case Finalize => j'.tx == NO_TX && j'.lastTx == r.tx && j'.lastOutcome == Finalized && j'.active == j.active
            case Status => true
  {
  }

  /** A request for somebody else, or about another transaction than the one that is open, changes nothing. */
  lemma OthersAreRefused(n: Node, r: Request, env: Env)
    requires r.op != Status
    requires !Addressed(n, r) || (n.journal.tx != NO_TX && n.journal.tx != r.tx)
    ensures Execute(n, r, env) == (n, Refused)
  {
  }

  /** A status request changes nothing, and is answered when it is for this machine and carries nothing else. */
  lemma StatusAnswers(n: Node, r: Request, env: Env)
    requires r.op == Status
    ensures Execute(n, r, env).0 == n
    ensures Execute(n, r, env).1 == (if r.cluster == n.id.cluster && r.member == n.id.member && r.plan == None && r.tx == NO_TX then Done else Refused)
  {
  }

  /** A candidate that does not pass its check, or for which no backup could be made, is not prepared. */
  lemma UncheckedIsRefused(n: Node, r: Request, env: Env)
    requires JournalInv(n.journal) && r.op == Prepare && n.journal.tx == NO_TX && !(env.checkPasses && env.backupMade)
    ensures Execute(n, r, env) == (n, Refused)
  {
  }

  /** What the last save stores is stored or not, whatever it reports; without it only a logged commit is on disk. */
  lemma LastSave(n: Node, r: Request, env: Env)
    requires JournalInv(n.journal)
    ensures var j', saved := Execute(n, r, env).0.journal, Execute(n, r, env.(lastSave := Saved)).0.journal;
            match env.lastSave
            case Saved => true
            case SavedThenError => j' == saved
            case CrashAfter => j' == saved
            case Unsaved => j' == n.journal || (r.op == Commit && j' == n.journal.(phase := Committing))
            case CrashBefore => j' == n.journal || (r.op == Commit && j' == n.journal.(phase := Committing))
    ensures Execute(n, r, env).1 == Done && Execute(n, r, env).0 != n ==> env.lastSave == Saved
  {
  }

  /** One request after another, each with its own failures. */
  function RunAll(n: Node, steps: seq<(Request, Env)>): Node
    decreases |steps|
  {
    if steps == [] then n else RunAll(Execute(n, steps[0].0, steps[0].1).0, steps[1..])
  }

  /** The transaction `tx` stays open through every prefix of the steps. */
  predicate StaysOpen(n: Node, tx: Tx, steps: seq<(Request, Env)>)
    decreases |steps|
  {
    n.journal.tx == tx && (steps != [] ==> StaysOpen(Execute(n, steps[0].0, steps[0].1).0, tx, steps[1..]))
  }

  lemma {:induction false} OpenKeepsPrevious(n: Node, tx: Tx, steps: seq<(Request, Env)>)
    requires JournalInv(n.journal) && tx != NO_TX && StaysOpen(n, tx, steps)
    ensures JournalInv(RunAll(n, steps).journal)
    ensures RunAll(n, steps).journal.tx == tx
    ensures RunAll(n, steps).journal.previous == n.journal.previous
    ensures RunAll(n, steps).journal.pending == n.journal.pending
    decreases |steps|
  {
    if steps != [] {
      ExecuteKeepsJournal(n, steps[0].0, steps[0].1);
      OpenKeepsPrevious(Execute(n, steps[0].0, steps[0].1).0, tx, steps[1..]);
    }
  }

  /**
   A rollback that closes the transaction leaves exactly the plan that was active before the prepare,
   whatever commits, crashes and failed applies happened in between.
   */
  lemma RollbackRestores(n: Node, prepare: (Request, Env), steps: seq<(Request, Env)>, last: (Request, Env))
    requires JournalInv(n.journal) && n.journal.tx == NO_TX
    requires prepare.0.tx != NO_TX
    requires var begun := Execute(n, prepare.0, prepare.1).0;
             StaysOpen(begun, prepare.0.tx, steps)
    requires var before := RunAll(Execute(n, prepare.0, prepare.1).0, steps);
             last.0.op == Rollback && Execute(before, last.0, last.1).0.journal.tx == NO_TX
    ensures var before := RunAll(Execute(n, prepare.0, prepare.1).0, steps);
            Execute(before, last.0, last.1).0.journal.active == n.journal.active
  {
    var begun := Execute(n, prepare.0, prepare.1).0;
    ExecuteKeepsJournal(n, prepare.0, prepare.1);
    OpenTransactionChanges(n, prepare.0, prepare.1);
    OpenKeepsPrevious(begun, prepare.0.tx, steps);
    OpenTransactionChanges(RunAll(begun, steps), last.0, last.1);
  }

  /** The revisions finalized along the steps, oldest first. */
  function FinalizedRevisions(n: Node, steps: seq<(Request, Env)>): seq<nat>
    decreases |steps|
  {
    if steps == [] then []
    else
      var next := Execute(n, steps[0].0, steps[0].1).0;
      (if n.journal.tx != NO_TX && next.journal.tx == NO_TX && next.journal.lastOutcome == Finalized && next.journal.active.Some?
       then [next.journal.active.value.revision] else [])
      + FinalizedRevisions(next, steps[1..])
  }

  /** The plan that survives if the open transaction, if any, is rolled back. */
  function Settled(j: Journal): Option<Plan> {
    if j.tx == NO_TX then j.active else j.previous
  }

  predicate StrictlyIncreasing(s: seq<nat>) {
    forall i, k :: 0 <= i < k < |s| ==> s[i] < s[k]
  }

  /** Finalized revisions strictly increase over every sequence of requests, crashes and failures. */
  lemma {:induction false} FinalizedRevisionsIncrease(n: Node, steps: seq<(Request, Env)>)
    requires JournalInv(n.journal)
    ensures StrictlyIncreasing(FinalizedRevisions(n, steps))
    ensures Settled(n.journal).Some? ==>
              forall i :: 0 <= i < |FinalizedRevisions(n, steps)| ==>
                            FinalizedRevisions(n, steps)[i] > Settled(n.journal).value.revision
    decreases |steps|
  {
    if steps != [] {
      var next := Execute(n, steps[0].0, steps[0].1).0;
      ExecuteKeepsJournal(n, steps[0].0, steps[0].1);
      OpenTransactionChanges(n, steps[0].0, steps[0].1);
      FinalizedRevisionsIncrease(next, steps[1..]);
      SettledMoves(n, steps[0].0, steps[0].1);
    }
  }

  /** A single execution moves the settled plan only by finalizing, and then to a higher revision. */
  lemma SettledMoves(n: Node, r: Request, env: Env)
    requires JournalInv(n.journal)
    ensures var j, j' := n.journal, Execute(n, r, env).0.journal;
            if j.tx != NO_TX && j'.tx == NO_TX && j'.lastOutcome == Finalized
            then j'.active.Some? && Settled(j') == j'.active
                 && (Settled(j).Some? ==> j'.active.value.revision > Settled(j).value.revision)
            else Settled(j') == Settled(j)
  {
    OpenTransactionChanges(n, r, env);
  }
}
