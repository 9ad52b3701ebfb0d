/**
 Automatic disables and the pending flag: whatever crashes or fails, a user that was disabled for its
 quota or its expiry is out of the configuration, or the saved state still asks for an apply.

 The runs hold the state lock from loading to their last write, so they do not interleave. Billing,
 connection-limit and burst transitions are inputs; they set no flag of this kind.
 */
module PendingApply {

  type Name = string

  /** `automatic` tells a disable for quota or expiry from one by hand. */
  datatype User = User(enabled: bool, automatic: bool)

  /** `pending` stands for a full apply, `burst` and `rate` for the smaller ones. */
  datatype State = State(users: map<Name, User>, pending: bool, burst: bool, rate: bool)

  /** The saved state, the users of the configuration file and those of the running configuration. */
  datatype World = World(durable: State, file: set<Name>, running: set<Name>)

  /** A save may also report an error after the state is stored, and a crash may come before or after it. */
  datatype SaveOutcome = Stored | Refused | StoredThenError | CrashBefore | CrashAfter

  /** A failed or interrupted apply leaves the old or the new file, and the old or the new configuration running. */
  datatype ApplyOutcome = Applied | Rejected | Undone(file: bool, running: bool) | CrashDuring(file: bool, running: bool)

  datatype Status = Go | Fail | Dead

  function Disable(s: State, due: set<Name>): State {
    s.(users := map n | n in s.users :: if s.users[n].enabled && n in due then User(false, true) else s.users[n])
  }

  predicate DisablesSomeone(s: State, due: set<Name>) {
    exists n :: n in s.users && s.users[n].enabled && n in due
  }

  /** Users in the rendered configuration: enabled ones that nothing else keeps out at that moment. */
  function Render(s: State, hidden: set<Name>): set<Name> {
    set n | n in s.users && s.users[n].enabled && n !in hidden
  }

  function AfterSave(w: World, s: State, o: SaveOutcome): World {
    if o == Stored || o == StoredThenError || o == CrashAfter then w.(durable := s) else w
  }

  function SaveStatus(o: SaveOutcome): Status {
    match o
    case Stored => Go
    case Refused => Fail
    case StoredThenError => Fail
    case CrashBefore => Dead
    case CrashAfter => Dead
  }

  /** Without a reload only the file is replaced. */
  function AfterApply(w: World, s: State, hidden: set<Name>, noReload: bool, o: ApplyOutcome): World {
    var users := Render(s, hidden);
    match o
    case Applied => w.(file := users, running := if noReload then w.running else users)
    case Rejected => w
    case Undone(file, running) => Partly(w, users, file, running && !noReload)
    case CrashDuring(file, running) => Partly(w, users, file, running && !noReload)
  }

  function Partly(w: World, users: set<Name>, file: bool, running: bool): World {
    w.(file := if file then users else w.file, running := if running then users else w.running)
  }

  function ApplyStatus(o: ApplyOutcome): Status {
    match o
    case Applied => Go
    case Rejected => Fail
    case Undone(_, _) => Fail
    case CrashDuring(_, _) => Dead
  }

  function Cleared(s: State): State {
    s.(pending := false, burst := false, rate := false)
  }

  // ------------------------------------------------------------------------------------------
  // The runs
  // ------------------------------------------------------------------------------------------

  /** `stats`: the counters were read from the service, so users may be disabled; `usage`, `tier`: what else changed. */
  datatype Sampling = Sampling(stats: bool, due: set<Name>, usage: bool, tier: bool)

  function Merged(s: State, x: Sampling): State {
    if x.stats && DisablesSomeone(s, x.due) then Disable(s, x.due).(pending := true) else s
  }

  predicate EligibilityChanged(s: State, x: Sampling) {
    x.stats && DisablesSomeone(s, x.due)
  }

  function Tiered(s: State, x: Sampling): State {
    if x.tier then s.(rate := true) else s
  }

  predicate AnythingChanged(s: State, x: Sampling) {
    EligibilityChanged(s, x) || x.usage || x.tier
  }

  datatype Step =
    | Realtime(sample: Sampling, first: SaveOutcome, hidden: set<Name>, apply: ApplyOutcome, rates: bool, second: SaveOutcome)
    | Maintenance(marks: bool, marksSave: SaveOutcome, marksHidden: set<Name>, marksApply: ApplyOutcome,
                  sample: Sampling, burst: bool, policy: bool, first: SaveOutcome,
                  hidden: set<Name>, apply: ApplyOutcome, restart: bool, second: SaveOutcome,
                  rates: bool, third: SaveOutcome, enforce: Enforcement)
    | Enforce(run: Enforcement)
    | Sync(sample: Sampling, doApply: bool, first: SaveOutcome, hidden: set<Name>, apply: ApplyOutcome, rates: bool, second: SaveOutcome)
    | ApplyCommand(noReload: bool, hidden: set<Name>, apply: ApplyOutcome, save: SaveOutcome)
    | ServiceRestart

  datatype Enforcement = Enforcement(due: set<Name>, doApply: bool, first: SaveOutcome, hidden: set<Name>, apply: ApplyOutcome, second: SaveOutcome)

  /** Applies and, if that succeeds, saves the state with its flags cleared. */
  function ApplyThenClear(w: World, s: State, cleared: State, hidden: set<Name>, apply: ApplyOutcome, save: SaveOutcome): World {
    var applied := AfterApply(w, s, hidden, false, apply);
    if ApplyStatus(apply) != Go then applied else AfterSave(applied, cleared, save)
  }

  /** Refreshes the rate limits only and saves the state without that flag. */
  function RatesThenClear(w: World, s: State, rates: bool, save: SaveOutcome): World {
    if rates then AfterSave(w, s.(rate := false), save) else w
  }

  function AfterEnforce(w: World, r: Enforcement): World {
    var changed := DisablesSomeone(w.durable, r.due);
    var s := if changed then Disable(w.durable, r.due).(pending := true) else w.durable;
    var saved := if changed then AfterSave(w, s, r.first) else w;
    if changed && SaveStatus(r.first) != Go then saved
    else if !s.pending || !r.doApply then saved
    else ApplyThenClear(saved, s, s.(pending := false), r.hidden, r.apply, r.second)
  }

  function AfterRealtime(w: World, r: Step): World
    requires r.Realtime?
  {
    var s := Tiered(Merged(w.durable, r.sample), r.sample);
    var changed := AnythingChanged(w.durable, r.sample);
    var saved := if changed then AfterSave(w, s, r.first) else w;
    if changed && SaveStatus(r.first) != Go then saved
    else if EligibilityChanged(w.durable, r.sample) then ApplyThenClear(saved, s, Cleared(s), r.hidden, r.apply, r.second)
    else if !r.sample.tier || s.pending || s.burst then saved
    else RatesThenClear(saved, s, r.rates, r.second)
  }

  function AfterSync(w: World, r: Step): World
    requires r.Sync?
  {
    var s := Tiered(Merged(w.durable, r.sample), r.sample);
    var saved := AfterSave(w, s, r.first);
    if SaveStatus(r.first) != Go then saved
    else if r.doApply && s.pending then
      ApplyThenClear(saved, s, s.(pending := false, rate := false), r.hidden, r.apply, r.second)
    else if r.doApply && s.rate then RatesThenClear(saved, s, r.rates, r.second)
    else saved
  }

  function AfterCommand(w: World, r: Step): World
    requires r.ApplyCommand?
  {
    var s := w.durable;
    var applied := AfterApply(w, s, r.hidden, r.noReload, r.apply);
    if ApplyStatus(r.apply) != Go || r.noReload || !(s.burst || s.rate || s.pending) then applied
    else AfterSave(applied, Cleared(s), r.save)
  }

  /** A maintenance run up to its sample: new marks are saved and applied, without clearing a flag. */
  function AfterMarks(w: World, r: Step): World
    requires r.Maintenance?
  {
    if !r.marks then w
    else
      var saved := AfterSave(w, w.durable, r.marksSave);
      if SaveStatus(r.marksSave) != Go then saved else AfterApply(saved, w.durable, r.marksHidden, false, r.marksApply)
  }

  predicate DiesAtMarks(r: Step)
    requires r.Maintenance?
  {
    r.marks && (SaveStatus(r.marksSave) != Go || ApplyStatus(r.marksApply) == Dead)
  }

  function Sampled(s: State, r: Step): State
    requires r.Maintenance?
  {
    var merged := Merged(s, r.sample);
    Tiered(if r.burst then merged.(burst := true) else merged, r.sample)
  }

  predicate SavesSample(s: State, r: Step)
    requires r.Maintenance?
  {
    AnythingChanged(s, r.sample) || r.burst
  }

  predicate Protects(s: State, r: Step)
    requires r.Maintenance?
  {
    r.policy || r.burst || s.burst || s.pending
  }

  /** Whether applying leaves something to save: a restart forgets connections, and flags are cleared. */
  predicate ClearsSomething(s: State, r: Step)
    requires r.Maintenance?
  {
    r.restart || s.burst || s.rate || s.pending
  }

  /** After the sample is saved: apply if anything asks for it, then the rates, then enforcement. */
  function AfterProtection(w: World, s: State, r: Step): World
    requires r.Maintenance?
  {
    if !Protects(s, r) then AfterRates(w, s, r)
    else
      var applied := AfterApply(w, s, r.hidden, false, r.apply);
      match ApplyStatus(r.apply)
      case Dead => applied
      case Fail => AfterRates(applied, s, r)
      case Go =>
        var saved := if ClearsSomething(s, r) then AfterSave(applied, Cleared(s), r.second) else applied;
        if ClearsSomething(s, r) && SaveStatus(r.second) == Dead then saved else AfterRates(saved, Cleared(s), r)
  }

  function AfterRates(w: World, s: State, r: Step): World
    requires r.Maintenance?
  {
    if !s.rate || !r.rates then AfterOwnEnforce(w, s, r)
    else
      var saved := AfterSave(w, s.(rate := false), r.third);
      if SaveStatus(r.third) == Dead then saved else AfterOwnEnforce(saved, s, r)
  }

  function AfterOwnEnforce(w: World, s: State, r: Step): World
    requires r.Maintenance?
  {
    if s.pending then w else AfterEnforce(w, r.enforce.(doApply := true))
  }

  function AfterMaintenance(w: World, r: Step): World
    requires r.Maintenance?
  {
    var marked := AfterMarks(w, r);
    if DiesAtMarks(r) then marked
    else
      var s := Sampled(w.durable, r);
      var saved := if SavesSample(w.durable, r) then AfterSave(marked, s, r.first) else marked;
      if SavesSample(w.durable, r) && SaveStatus(r.first) != Go then saved else AfterProtection(saved, s, r)
  }

  function Next(w: World, r: Step): World {
    match r
    case Realtime(_, _, _, _, _, _) => AfterRealtime(w, r)
    case Maintenance(_, _, _, _, _, _, _, _, _, _, _, _, _, _, _) => AfterMaintenance(w, r)
    case Enforce(run) => AfterEnforce(w, run)
    case Sync(_, _, _, _, _, _, _) => AfterSync(w, r)
    case ApplyCommand(_, _, _, _) => AfterCommand(w, r)
    case ServiceRestart => w.(running := w.file)
  }

  function Run(w: World, steps: seq<Step>): World
    decreases |steps|
  {
    if steps == [] then w else Next(Run(w, steps[..|steps| - 1]), steps[|steps| - 1])
  }

  // ------------------------------------------------------------------------------------------
  // Safety
  // ------------------------------------------------------------------------------------------

  predicate AutoDisabled(s: State, n: Name) {
    n in s.users && !s.users[n].enabled && s.users[n].automatic
  }

  /** Nobody disabled automatically is configured. */
  predicate KeptOut(s: State, users: set<Name>) {
    forall n :: n in users ==> !AutoDisabled(s, n)
  }

  /** Write-ahead: an automatic disable is in effect in file and service, or an apply is still pending. */
  predicate Safe(w: World) {
    w.durable.pending || (KeptOut(w.durable, w.file) && KeptOut(w.durable, w.running))
  }

  /** The state a command works on: what it would save is safe to save while the flag is set, or as long as nobody new is disabled. */
  predicate SafeFor(w: World, s: State) {
    s.pending || (KeptOut(s, w.file) && KeptOut(s, w.running))
  }

  lemma RenderKeepsOut(s: State, hidden: set<Name>)
    ensures KeptOut(s, Render(s, hidden))
  {
  }

  lemma SaveIsSafe(w: World, s: State, o: SaveOutcome)
    requires Safe(w) && SafeFor(w, s)
    ensures Safe(AfterSave(w, s, o)) && SafeFor(AfterSave(w, s, o), s)
  {
  }

  /** Applying a state never brings in somebody it or the saved state has disabled. */
  lemma ApplyIsSafe(w: World, s: State, hidden: set<Name>, noReload: bool, o: ApplyOutcome)
    requires Safe(w) && SafeFor(w, s)
    requires w.durable.pending || w.durable.users == s.users
    ensures var w' := AfterApply(w, s, hidden, noReload, o);
            && w'.durable == w.durable && Safe(w') && SafeFor(w', s)
            && (o == Applied && !noReload ==> KeptOut(s, w'.file) && KeptOut(s, w'.running))
  {
    RenderKeepsOut(s, hidden);
    if w.durable.users == s.users {
      forall n
        ensures AutoDisabled(s, n) <==> AutoDisabled(w.durable, n)
      {
      }
    }
  }

  lemma ApplyThenClearIsSafe(w: World, s: State, cleared: State, hidden: set<Name>, apply: ApplyOutcome, save: SaveOutcome)
    requires Safe(w) && SafeFor(w, s) && cleared.users == s.users
    requires w.durable.pending || w.durable.users == s.users
    ensures Safe(ApplyThenClear(w, s, cleared, hidden, apply, save))
  {
    hide AfterApply;
    hide AfterSave;
    ApplyIsSafe(w, s, hidden, false, apply);
    if ApplyStatus(apply) == Go {
      var applied := AfterApply(w, s, hidden, false, apply);
      assert forall n :: AutoDisabled(s, n) <==> AutoDisabled(cleared, n);
      SaveIsSafe(applied, cleared, save);
    }
  }

  /** What sampling makes of a loaded state can be saved: whoever it disables comes with the flag. */
  lemma MergedIsSafe(w: World, x: Sampling)
    requires Safe(w)
    ensures SafeFor(w, Merged(w.durable, x)) && SafeFor(w, Tiered(Merged(w.durable, x), x))
    ensures !EligibilityChanged(w.durable, x) ==> Merged(w.durable, x) == w.durable
  {
  }

  lemma EnforceIsSafe(w: World, r: Enforcement)
    requires Safe(w)
    ensures Safe(AfterEnforce(w, r))
  {
    hide Disable;
    hide DisablesSomeone;
    hide ApplyThenClear;
    var changed := DisablesSomeone(w.durable, r.due);
    var s := if changed then Disable(w.durable, r.due).(pending := true) else w.durable;
    if changed {
      SaveIsSafe(w, s, r.first);
    }
    var saved := if changed then AfterSave(w, s, r.first) else w;
    if !changed || SaveStatus(r.first) == Go {
      ApplyThenClearIsSafe(saved, s, s.(pending := false), r.hidden, r.apply, r.second);
    }
  }

  lemma RealtimeIsSafe(w: World, r: Step)
    requires Safe(w) && r.Realtime?
    ensures Safe(AfterRealtime(w, r))
  {
    hide DisablesSomeone;
    hide Disable;
    hide ApplyThenClear;
    var s := Tiered(Merged(w.durable, r.sample), r.sample);
    MergedIsSafe(w, r.sample);
    SaveIsSafe(w, s, r.first);
    var saved := if AnythingChanged(w.durable, r.sample) then AfterSave(w, s, r.first) else w;
    if EligibilityChanged(w.durable, r.sample) && SaveStatus(r.first) == Go {
      ApplyThenClearIsSafe(saved, s, Cleared(s), r.hidden, r.apply, r.second);
    }
    assert SafeFor(saved, s.(rate := false));
  }

  lemma SyncIsSafe(w: World, r: Step)
    requires Safe(w) && r.Sync?
    ensures Safe(AfterSync(w, r))
  {
    hide DisablesSomeone;
    hide Disable;
    hide ApplyThenClear;
    var s := Tiered(Merged(w.durable, r.sample), r.sample);
    MergedIsSafe(w, r.sample);
    SaveIsSafe(w, s, r.first);
    var saved := AfterSave(w, s, r.first);
    if SaveStatus(r.first) == Go {
      ApplyThenClearIsSafe(saved, s, s.(pending := false, rate := false), r.hidden, r.apply, r.second);
      SaveIsSafe(saved, s.(rate := false), r.second);
    }
  }

  lemma CommandIsSafe(w: World, r: Step)
    requires Safe(w) && r.ApplyCommand?
    ensures Safe(AfterCommand(w, r))
  {
    hide Render;
    ApplyIsSafe(w, w.durable, r.hidden, r.noReload, r.apply);
    var applied := AfterApply(w, w.durable, r.hidden, r.noReload, r.apply);
    if ApplyStatus(r.apply) == Go && !r.noReload {
      assert forall n :: AutoDisabled(Cleared(w.durable), n) <==> AutoDisabled(w.durable, n);
      SaveIsSafe(applied, Cleared(w.durable), r.save);
    }
  }

  lemma MarksAreSafe(w: World, r: Step)
    requires Safe(w) && r.Maintenance?
    ensures Safe(AfterMarks(w, r)) && AfterMarks(w, r).durable == w.durable
  {
    hide Render;
    ApplyIsSafe(w, w.durable, r.marksHidden, false, r.marksApply);
  }

  lemma RatesAreSafe(w: World, s: State, r: Step)
    requires Safe(w) && r.Maintenance? && SafeFor(w, s)
    ensures Safe(AfterRates(w, s, r))
  {
    hide AfterEnforce;
    var saved := AfterSave(w, s.(rate := false), r.third);
    SaveIsSafe(w, s.(rate := false), r.third);
    EnforceIsSafe(w, r.enforce.(doApply := true));
    EnforceIsSafe(saved, r.enforce.(doApply := true));
  }

  lemma ProtectionIsSafe(w: World, s: State, r: Step)
    requires Safe(w) && r.Maintenance? && SafeFor(w, s) && (w.durable.pending || w.durable.users == s.users)
    ensures Safe(AfterProtection(w, s, r))
  {
    hide AfterApply;
    hide AfterRates;
    RatesAreSafe(w, s, r);
    ApplyIsSafe(w, s, r.hidden, false, r.apply);
    var applied := AfterApply(w, s, r.hidden, false, r.apply);
    RatesAreSafe(applied, s, r);
    if ApplyStatus(r.apply) == Go {
      assert forall n :: AutoDisabled(Cleared(s), n) <==> AutoDisabled(s, n);
      SaveIsSafe(applied, Cleared(s), r.second);
      RatesAreSafe(AfterSave(applied, Cleared(s), r.second), Cleared(s), r);
      RatesAreSafe(applied, Cleared(s), r);
    }
  }

  lemma MaintenanceIsSafe(w: World, r: Step)
    requires Safe(w) && r.Maintenance?
    ensures Safe(AfterMaintenance(w, r))
  {
    hide AfterMarks;
    hide AfterProtection;
    hide Disable;
    hide DisablesSomeone;
    MarksAreSafe(w, r);
    var marked := AfterMarks(w, r);
    MergedIsSafe(marked, r.sample);
    if !DiesAtMarks(r) {
      var s := Sampled(w.durable, r);
      assert SafeFor(marked, s);
      SaveIsSafe(marked, s, r.first);
      var saved := if SavesSample(w.durable, r) then AfterSave(marked, s, r.first) else marked;
      if !SavesSample(w.durable, r) || SaveStatus(r.first) == Go {
        ProtectionIsSafe(saved, s, r);
      }
    }
  }

  lemma NextIsSafe(w: World, r: Step)
    requires Safe(w)
    ensures Safe(Next(w, r))
  {
    hide AfterRealtime;
    hide AfterMaintenance;
    hide AfterEnforce;
    hide AfterSync;
    hide AfterCommand;
    match r
    case Realtime(_, _, _, _, _, _) => RealtimeIsSafe(w, r);
    case Maintenance(_, _, _, _, _, _, _, _, _, _, _, _, _, _, _) => MaintenanceIsSafe(w, r);
    case Enforce(run) => EnforceIsSafe(w, run);
    case Sync(_, _, _, _, _, _, _) => SyncIsSafe(w, r);
    case ApplyCommand(_, _, _, _) => CommandIsSafe(w, r);
    case ServiceRestart =>
  }

  /**
   In every state reached by realtime, maintenance, enforce, sync and apply runs with saves and
   applies failing, crashing or half done anywhere, an automatically disabled user is out of the file
   and the running configuration, or the saved state has the pending flag.
   */
  lemma {:induction false} DisablesAreNeverForgotten(w: World, steps: seq<Step>)
    requires Safe(w)
    ensures Safe(Run(w, steps))
    decreases |steps|
  {
    hide Next;
    if steps != [] {
      DisablesAreNeverForgotten(w, steps[..|steps| - 1]);
      NextIsSafe(Run(w, steps[..|steps| - 1]), steps[|steps| - 1]);
    }
  }

  /** A pending apply is made good by the next maintenance run whose apply succeeds. */
  lemma MaintenanceSettles(w: World, r: Step)
    requires Safe(w) && r.Maintenance? && w.durable.pending && !DiesAtMarks(r)
    requires r.first == Stored && r.apply == Applied && r.second == Stored
    requires r.enforce.first == Stored && r.enforce.apply == Applied && r.enforce.second == Stored
    ensures var w' := AfterMaintenance(w, r);
            !w'.durable.pending && KeptOut(w'.durable, w'.file) && KeptOut(w'.durable, w'.running)
  {
    MaintenanceIsSafe(w, r);
    hide Disable;
    hide DisablesSomeone;
    hide Render;
  }

  // ------------------------------------------------------------------------------------------
  // Who is disabled, and who is configured
  // ------------------------------------------------------------------------------------------

  ghost predicate SomeoneIsDue(s: State, due: set<Name>) {
    exists n :: n in due && n in s.users && s.users[n].enabled
  }

  /** Whoever was enabled and is due has been disabled automatically, and nobody else has changed. */
  ghost predicate OnlyTheDue(before: State, after: State, due: set<Name>) {
    && (forall n :: n in after.users <==> n in before.users)
    && (forall n :: n in before.users && before.users[n].enabled && n in due ==> !after.users[n].enabled && after.users[n].automatic)
    && (forall n :: n in before.users && !(before.users[n].enabled && n in due) ==> after.users[n] == before.users[n])
  }

  /** The users are exactly the enabled ones that are not hidden. */
  ghost predicate Configures(users: set<Name>, s: State, hidden: set<Name>) {
    forall n :: n in users <==> n in s.users && s.users[n].enabled && n !in hidden
  }

  function Reached(o: SaveOutcome): bool {
    o in {Stored, StoredThenError, CrashAfter}
  }

  /** Those who are due by the counters of a sample, if they were read. */
  function DueBy(x: Sampling): set<Name> {
    if x.stats then x.due else {}
  }

  lemma DisableTakesTheDue(s: State, due: set<Name>)
    ensures OnlyTheDue(s, Disable(s, due), due)
    ensures var s' := Disable(s, due); s'.pending == s.pending && s'.burst == s.burst && s'.rate == s.rate
    ensures DisablesSomeone(s, due) <==> SomeoneIsDue(s, due)
    ensures !SomeoneIsDue(s, due) ==> OnlyTheDue(s, s, due)
  {
  }

  lemma RenderConfigures(s: State, hidden: set<Name>)
    ensures Configures(Render(s, hidden), s, hidden)
  {
  }

  /**
   Enforcement, for every outcome of its saves and its apply. Once its first save has reached the
   disk exactly those due are disabled; until an apply has succeeded the flag is set and says so, and
   after one the file and the service have exactly the enabled users.
   */
  lemma EnforceDecides(w: World, r: Enforcement)
    ensures var w', anyone := AfterEnforce(w, r), SomeoneIsDue(w.durable, r.due);
            var tries := (anyone ==> r.first == Stored) && (anyone || w.durable.pending) && r.doApply;
            && (!anyone || Reached(r.first) ==> OnlyTheDue(w.durable, w'.durable, r.due))
            && (anyone && !Reached(r.first) ==> w' == w)
            && (!tries ==> w'.file == w.file && w'.running == w.running)
            && (tries && r.apply == Applied ==>
                  && Configures(w'.file, w'.durable, r.hidden) && w'.running == w'.file
                  && (w'.durable.pending <==> !Reached(r.second)))
            && ((!anyone || Reached(r.first)) && !(tries && r.apply == Applied) ==> (w'.durable.pending <==> w.durable.pending || anyone))
            && w'.durable.burst == w.durable.burst && w'.durable.rate == w.durable.rate
  {
    hide OnlyTheDue;
    hide Configures;
    hide SomeoneIsDue;
    var s := if DisablesSomeone(w.durable, r.due) then Disable(w.durable, r.due).(pending := true) else w.durable;
    DisableTakesTheDue(w.durable, r.due);
    FlagsDoNotMatter(w.durable, Disable(w.durable, r.due), r.due);
    FlagsDoNotMatter(w.durable, w.durable, r.due);
    RenderConfigures(s, r.hidden);
    ConfiguresByUsers(Render(s, r.hidden), s, r.hidden);
    hide Disable;
    hide DisablesSomeone;
    hide Render;
  }

  /** Who is enabled is a matter of the users, not of the flags. */
  lemma FlagsDoNotMatter(before: State, after: State, due: set<Name>)
    ensures OnlyTheDue(before, after, due) ==> forall s: State :: s.users == after.users ==> OnlyTheDue(before, s, due)
  {
  }

  lemma ConfiguresByUsers(users: set<Name>, s: State, hidden: set<Name>)
    requires Configures(users, s, hidden)
    ensures forall x: State :: x.users == s.users ==> Configures(users, x, hidden)
  {
  }

  lemma SampleTakesTheDue(s: State, x: Sampling, hidden: set<Name>)
    ensures var s', anyone := Tiered(Merged(s, x), x), SomeoneIsDue(s, DueBy(x));
            && (forall t: State :: t.users == s'.users ==> OnlyTheDue(s, t, DueBy(x)) && Configures(Render(s', hidden), t, hidden))
            && (EligibilityChanged(s, x) <==> anyone)
            && (s'.pending <==> s.pending || anyone) && s'.burst == s.burst && (s'.rate <==> s.rate || x.tier)
  {
    DisableTakesTheDue(s, x.due);
    FlagsDoNotMatter(s, Disable(s, x.due), x.due);
    OnlyTheDueOfNone(s);
    var s' := Tiered(Merged(s, x), x);
    RenderConfigures(s', hidden);
    ConfiguresByUsers(Render(s', hidden), s', hidden);
    hide OnlyTheDue;
    hide Configures;
    hide Render;
    hide Disable;
  }

  lemma OnlyTheDueOfNone(s: State)
    ensures !SomeoneIsDue(s, {})
    ensures forall t: State, due :: t.users == s.users && !SomeoneIsDue(s, due) ==> OnlyTheDue(s, t, due)
  {
  }

  /**
   The realtime run, for every outcome. It does nothing when nothing changed or its first save fails.
   Once that save has reached the disk exactly those due are disabled. Somebody due is the one reason
   to apply; after an apply that succeeded file and service have exactly the enabled users.
   */
  lemma RealtimeDecides(w: World, r: Step)
    requires r.Realtime?
    ensures var w', x, anyone := AfterRealtime(w, r), r.sample, SomeoneIsDue(w.durable, DueBy(r.sample));
            var stores, tries := (anyone || x.usage || x.tier) && Reached(r.first), anyone && r.first == Stored;
            var refreshes := !anyone && x.tier && !w.durable.pending && !w.durable.burst && r.first == Stored && r.rates && Reached(r.second);
            && (!stores ==> w' == w)
            && (stores ==> OnlyTheDue(w.durable, w'.durable, DueBy(x)))
            && (!tries ==> w'.file == w.file && w'.running == w.running)
            && (tries && r.apply == Applied ==> Configures(w'.file, w'.durable, r.hidden) && w'.running == w'.file)
            && (tries && r.apply == Applied && Reached(r.second) ==> !w'.durable.pending && !w'.durable.burst && !w'.durable.rate)
            && (stores && !(tries && r.apply == Applied && Reached(r.second)) ==>
                  && (w'.durable.pending <==> w.durable.pending || anyone) && w'.durable.burst == w.durable.burst
                  && (w'.durable.rate <==> (w.durable.rate || x.tier) && !refreshes))
  {
    SampleTakesTheDue(w.durable, r.sample, r.hidden);
    hide OnlyTheDue;
    hide Configures;
    hide SomeoneIsDue;
    hide Merged;
    hide EligibilityChanged;
    hide Render;
  }

  /** The sync command, for every outcome: it always saves, and applies when that is asked for and the flag is set. */
  lemma SyncDecides(w: World, r: Step)
    requires r.Sync?
    ensures var w', x, anyone := AfterSync(w, r), r.sample, SomeoneIsDue(w.durable, DueBy(r.sample));
            var tries := r.first == Stored && r.doApply && (anyone || w.durable.pending);
            var refreshes := r.first == Stored && r.doApply && !anyone && !w.durable.pending && r.rates && Reached(r.second);
            && (!Reached(r.first) ==> w' == w)
            && (Reached(r.first) ==> OnlyTheDue(w.durable, w'.durable, DueBy(x)) && w'.durable.burst == w.durable.burst)
            && (!tries ==> w'.file == w.file && w'.running == w.running)
            && (tries && r.apply == Applied ==> Configures(w'.file, w'.durable, r.hidden) && w'.running == w'.file)
            && (tries && r.apply == Applied && Reached(r.second) ==> !w'.durable.pending && !w'.durable.rate)
            && (Reached(r.first) && !(tries && r.apply == Applied && Reached(r.second)) ==>
                  && (w'.durable.pending <==> w.durable.pending || anyone)
                  && (w'.durable.rate <==> (w.durable.rate || x.tier) && !refreshes))
  {
    SampleTakesTheDue(w.durable, r.sample, r.hidden);
    hide OnlyTheDue;
    hide Configures;
    hide SomeoneIsDue;
    hide Merged;
    hide EligibilityChanged;
    hide Render;
  }

  /** An apply leaves the old users or exactly the enabled ones; without a reload the service keeps the old. */
  lemma ApplyConfigures(w: World, s: State, hidden: set<Name>, noReload: bool, o: ApplyOutcome)
    ensures var w' := AfterApply(w, s, hidden, noReload, o);
            && w'.durable == w.durable
            && (w'.file == w.file || Configures(w'.file, s, hidden))
            && (w'.running == w.running || (!noReload && Configures(w'.running, s, hidden)))
            && (o == Applied ==> Configures(w'.file, s, hidden) && w'.running == if noReload then w.running else w'.file)
            && (o == Rejected ==> w' == w)
            && (o.Undone? || o.CrashDuring? ==>
                  && (if o.file then Configures(w'.file, s, hidden) else w'.file == w.file)
                  && (if o.running && !noReload then Configures(w'.running, s, hidden) else w'.running == w.running))
  {
  }

  /** The apply command, for every outcome: it changes no user, and clears the flags when it has applied with a reload. */
  lemma CommandDecides(w: World, r: Step)
    requires r.ApplyCommand?
    ensures var w' := AfterCommand(w, r);
            && w'.durable.users == w.durable.users
            && (r.apply == Applied ==> Configures(w'.file, w'.durable, r.hidden) && w'.running == if r.noReload then w.running else w'.file)
            && (r.apply == Rejected ==> w' == w)
            && (if r.apply == Applied && !r.noReload && Reached(r.save)
                then !w'.durable.pending && !w'.durable.burst && !w'.durable.rate
                else w'.durable == w.durable)
  {
    ApplyConfigures(w, w.durable, r.hidden, r.noReload, r.apply);
    var applied := AfterApply(w, w.durable, r.hidden, r.noReload, r.apply);
    assert r.apply == Applied ==> forall t: State :: t.users == w.durable.users ==> Configures(applied.file, t, r.hidden);
    hide Configures;
    hide AfterApply;
  }

  lemma OnlyTheDueTwice(a: State, b: State, c: State, first: set<Name>, then_: set<Name>)
    requires OnlyTheDue(a, b, first) && OnlyTheDue(b, c, then_)
    ensures OnlyTheDue(a, c, first + then_)
  {
  }

  /** What follows the sample of a maintenance run disables exactly those due by its enforcement, or nobody. */
  lemma RestOfMaintenance(w: World, s: State, r: Step)
    requires r.Maintenance? && w.durable.users == s.users
    ensures var w' := AfterProtection(w, s, r);
            && (OnlyTheDue(s, w'.durable, {}) || OnlyTheDue(s, w'.durable, r.enforce.due))
            && (w.durable.burst == s.burst && r.apply != Applied ==> w'.durable.burst == s.burst)
  {
    hide AfterEnforce;
    hide OnlyTheDue;
    hide Protects;
    hide ClearsSomething;
    ApplyKeepsState(w, s, r.hidden, false, r.apply);
    var applied := AfterApply(w, s, r.hidden, false, r.apply);
    hide AfterApply;
    RatesOfMaintenance(w, s, r);
    RatesOfMaintenance(applied, s, r);
    RatesOfMaintenance(applied, Cleared(s), r);
    RatesOfMaintenance(AfterSave(applied, Cleared(s), r.second), Cleared(s), r);
    OnlyTheDueByUsers(s);
    hide AfterRates;
  }

  lemma OnlyTheDueByUsers(s: State)
    ensures forall t: State, u: State, due :: t.users == s.users && OnlyTheDue(t, u, due) ==> OnlyTheDue(s, u, due)
    ensures forall t: State :: t.users == s.users ==> OnlyTheDue(s, t, {})
  {
  }

  lemma RatesOfMaintenance(w: World, s: State, r: Step)
    requires r.Maintenance? && w.durable.users == s.users
    ensures var w' := AfterRates(w, s, r);
            && (OnlyTheDue(s, w'.durable, {}) || OnlyTheDue(s, w'.durable, r.enforce.due))
            && (w.durable.burst == s.burst ==> w'.durable.burst == s.burst)
  {
    var saved := AfterSave(w, s.(rate := false), r.third);
    EnforceDecides(w, r.enforce.(doApply := true));
    EnforceDecides(saved, r.enforce.(doApply := true));
    OnlyTheDueByUsers(s);
    hide AfterEnforce;
    hide OnlyTheDue;
    hide Configures;
  }

  /**
   A maintenance run that stops at its new marks has saved nothing new, and configured the old users at
   most; one that stops at the save of its sample has stored all of it or nothing.
   */
  lemma MaintenanceStops(w: World, r: Step)
    requires r.Maintenance?
    ensures var w', x := AfterMaintenance(w, r), r.sample;
            var stops := r.marks && (r.marksSave != Stored || r.marksApply.CrashDuring?);
            var stores := SomeoneIsDue(w.durable, DueBy(x)) || x.usage || x.tier || r.burst;
            && (stops || (stores && !Reached(r.first)) ==> w'.durable == w.durable)
            && (stops && r.marksSave != Stored ==> w' == w)
            && (stops && r.marksSave == Stored ==>
                  && (if r.marksApply.file then Configures(w'.file, w.durable, r.marksHidden) else w'.file == w.file)
                  && (if r.marksApply.running then Configures(w'.running, w.durable, r.marksHidden) else w'.running == w.running))
            && (!stops && stores && Reached(r.first) && r.first != Stored ==>
                  && OnlyTheDue(w.durable, w'.durable, DueBy(x)) && (w'.durable.burst <==> w.durable.burst || r.burst)
                  && (w'.durable.pending <==> w.durable.pending || SomeoneIsDue(w.durable, DueBy(x))) && (w'.durable.rate <==> w.durable.rate || x.tier))
  {
    SampleTakesTheDue(w.durable, r.sample, r.hidden);
    MarksKeepState(w, r);
    hide OnlyTheDue;
    hide Configures;
    hide AfterProtection;
    hide AfterMarks;
    hide SomeoneIsDue;
    hide Merged;
    hide EligibilityChanged;
  }

  /**
   Any other maintenance run, for every outcome of what follows: exactly those due by its sample, if
   the counters were read, are disabled, and then those due by its own enforcement or nobody. The burst
   flag stays until an apply has succeeded.
   */
  lemma MaintenanceDecides(w: World, r: Step)
    requires r.Maintenance? && !(r.marks && (r.marksSave != Stored || r.marksApply.CrashDuring?))
    requires SomeoneIsDue(w.durable, DueBy(r.sample)) || r.sample.usage || r.sample.tier || r.burst ==> r.first == Stored
    ensures var w', x := AfterMaintenance(w, r), r.sample;
            && (OnlyTheDue(w.durable, w'.durable, DueBy(x)) || OnlyTheDue(w.durable, w'.durable, DueBy(x) + r.enforce.due))
            && (r.apply != Applied ==> (w'.durable.burst <==> w.durable.burst || r.burst))
  {
    var s := Sampled(w.durable, r);
    SampleTakesTheDue(w.durable, r.sample, r.hidden);
    MarksKeepState(w, r);
    assert OnlyTheDue(w.durable, s, DueBy(r.sample));
    var marked := AfterMarks(w, r);
    var saved := if SavesSample(w.durable, r) then AfterSave(marked, s, r.first) else marked;
    RestOfMaintenance(saved, s, r);
    var w' := AfterProtection(saved, s, r);
    assert DueBy(r.sample) + {} == DueBy(r.sample);
    if OnlyTheDue(s, w'.durable, {}) {
      OnlyTheDueTwice(w.durable, s, w'.durable, DueBy(r.sample), {});
    } else {
      OnlyTheDueTwice(w.durable, s, w'.durable, DueBy(r.sample), r.enforce.due);
    }
    hide OnlyTheDue;
    hide Configures;
    hide AfterProtection;
    hide AfterMarks;
    hide SomeoneIsDue;
    hide Merged;
    hide EligibilityChanged;
  }

  lemma MarksKeepState(w: World, r: Step)
    requires r.Maintenance?
    ensures AfterMarks(w, r).durable == w.durable
    ensures !r.marks || r.marksSave != Stored ==> AfterMarks(w, r) == w
    ensures r.marks && r.marksSave == Stored ==>
              var w' := AfterMarks(w, r);
              && (r.marksApply == Applied ==> Configures(w'.file, w.durable, r.marksHidden) && w'.running == w'.file)
              && (r.marksApply == Rejected ==> w' == w)
              && (r.marksApply.CrashDuring? || r.marksApply.Undone? ==>
                    && (if r.marksApply.file then Configures(w'.file, w.durable, r.marksHidden) else w'.file == w.file)
                    && (if r.marksApply.running then Configures(w'.running, w.durable, r.marksHidden) else w'.running == w.running))
    ensures DiesAtMarks(r) <==> r.marks && (r.marksSave != Stored || r.marksApply.CrashDuring?)
  {
    ApplyConfigures(AfterSave(w, w.durable, r.marksSave), w.durable, r.marksHidden, false, r.marksApply);
    hide Configures;
    hide AfterApply;
  }

  /**
   A maintenance run whose saves and applies succeed: exactly those due by its sample and then by its
   enforcement are disabled, no apply is left pending, and if anything asked for an apply, file and
   service have exactly the enabled users of the end, but for those hidden when it last applied.
   */
  lemma MaintenanceConfigures(w: World, r: Step)
    requires r.Maintenance? && !(r.marks && (r.marksSave != Stored || r.marksApply.CrashDuring?))
    requires r.first == Stored && r.apply == Applied && r.second == Stored && r.third == Stored
    requires r.enforce.first == Stored && r.enforce.apply == Applied && r.enforce.second == Stored
    ensures var w', x := AfterMaintenance(w, r), r.sample;
            var anyone := SomeoneIsDue(w.durable, DueBy(x));
            var late := exists n :: n in r.enforce.due && n !in DueBy(x) && n in w.durable.users && w.durable.users[n].enabled;
            var asks := r.policy || r.burst || w.durable.burst || w.durable.pending || anyone;
            && OnlyTheDue(w.durable, w'.durable, DueBy(x) + r.enforce.due)
            && !w'.durable.pending && !w'.durable.burst
            && (w'.durable.rate <==> !asks && (w.durable.rate || x.tier) && !r.rates)
            && (late || asks ==> Configures(w'.file, w'.durable, if late then r.enforce.hidden else r.hidden) && w'.running == w'.file)
            && (!late && !asks && !r.marks ==> w'.file == w.file && w'.running == w.running)
            && (!late && !asks && r.marks && r.marksApply == Applied ==> Configures(w'.file, w.durable, r.marksHidden) && w'.running == w'.file)
  {
    var s, x := Sampled(w.durable, r), r.sample;
    SampleTakesTheDue(w.durable, x, r.hidden);
    MarksKeepState(w, r);
    var marked := AfterMarks(w, r);
    var saved := if SavesSample(w.durable, r) then AfterSave(marked, s, r.first) else marked;
    LateAreDue(w.durable, s, DueBy(x), r.enforce.due);
    ProtectionConfigures(saved, s, r);
    OnlyTheDueTwice(w.durable, s, AfterProtection(saved, s, r).durable, DueBy(x), r.enforce.due);
    hide OnlyTheDue;
    hide Configures;
    hide SomeoneIsDue;
    hide AfterProtection;
    hide AfterMarks;
    hide Merged;
    hide EligibilityChanged;
    hide Render;
  }

  /** Those a sample has not disabled are the ones left for enforcement. */
  lemma LateAreDue(before: State, s: State, due: set<Name>, more: set<Name>)
    requires OnlyTheDue(before, s, due)
    ensures SomeoneIsDue(s, more) <==> exists n :: n in more && n !in due && n in before.users && before.users[n].enabled
  {
  }

  /** The part of that run after the sample is saved. */
  lemma ProtectionConfigures(w: World, s: State, r: Step)
    requires r.Maintenance? && w.durable == s
    requires r.apply == Applied && r.second == Stored && r.third == Stored
    requires r.enforce.first == Stored && r.enforce.apply == Applied && r.enforce.second == Stored
    ensures var w', late := AfterProtection(w, s, r), SomeoneIsDue(s, r.enforce.due);
            var asks := r.policy || r.burst || s.burst || s.pending;
            && OnlyTheDue(s, w'.durable, r.enforce.due)
            && !w'.durable.pending && !w'.durable.burst && (w'.durable.rate <==> !asks && s.rate && !r.rates)
            && (late || asks ==> Configures(w'.file, w'.durable, if late then r.enforce.hidden else r.hidden) && w'.running == w'.file)
            && (!late && !asks ==> w'.file == w.file && w'.running == w.running)
  {
    ApplyConfigures(w, s, r.hidden, false, r.apply);
    var applied := AfterApply(w, s, r.hidden, false, r.apply);
    hide AfterApply;
    DueByUsers(s, r.enforce.due);
    if !Protects(s, r) {
      RatesConfigure(w, s, r);
    } else {
      var saved := if ClearsSomething(s, r) then AfterSave(applied, Cleared(s), r.second) else applied;
      RatesConfigure(saved, Cleared(s), r);
      StillConfigured(applied.file, s, AfterProtection(w, s, r).durable, r.enforce.due, r.hidden);
    }
    hide AfterRates;
    hide OnlyTheDue;
    hide Configures;
    hide SomeoneIsDue;
  }

  lemma DueByUsers(s: State, due: set<Name>)
    ensures forall t: State :: t.users == s.users ==> (SomeoneIsDue(t, due) <==> SomeoneIsDue(s, due))
    ensures forall t: State, u: State :: t.users == s.users && OnlyTheDue(t, u, due) ==> OnlyTheDue(s, u, due)
  {
  }

  /** Who was configured stays configured when nobody is disabled. */
  lemma StillConfigured(users: set<Name>, s: State, t: State, due: set<Name>, hidden: set<Name>)
    ensures Configures(users, s, hidden) && OnlyTheDue(s, t, due) && !SomeoneIsDue(s, due) ==> Configures(users, t, hidden)
  {
  }

  lemma RatesConfigure(w: World, s: State, r: Step)
    requires r.Maintenance? && r.third == Stored
    requires r.enforce.first == Stored && r.enforce.apply == Applied && r.enforce.second == Stored
    requires w.durable == s && !s.pending
    ensures var w', late := AfterRates(w, s, r), SomeoneIsDue(s, r.enforce.due);
            && OnlyTheDue(s, w'.durable, r.enforce.due)
            && !w'.durable.pending && w'.durable.burst == s.burst && (w'.durable.rate <==> s.rate && !r.rates)
            && (late ==> Configures(w'.file, w'.durable, r.enforce.hidden) && w'.running == w'.file)
            && (!late ==> w'.file == w.file && w'.running == w.running)
  {
    var saved := AfterSave(w, s.(rate := false), r.third);
    EnforceDecides(w, r.enforce.(doApply := true));
    EnforceDecides(saved, r.enforce.(doApply := true));
    DueByUsers(s, r.enforce.due);
    hide AfterEnforce;
    hide OnlyTheDue;
    hide Configures;
    hide SomeoneIsDue;
  }

  /** Whom a run may disable: those due by its sample or its enforcement. */
  function MayDisable(r: Step): set<Name> {
    match r
    case Realtime(sample, _, _, _, _, _) => DueBy(sample)
    case Maintenance(_, _, _, _, sample, _, _, _, _, _, _, _, _, _, enforce) => DueBy(sample) + enforce.due
    case Enforce(run) => run.due
    case Sync(sample, _, _, _, _, _, _) => DueBy(sample)
    case ApplyCommand(_, _, _, _) => {}
    case ServiceRestart => {}
  }

  lemma MaintenanceSparesOthers(w: World, r: Step, n: Name)
    requires r.Maintenance? && n !in DueBy(r.sample) + r.enforce.due && n in w.durable.users
    ensures n in AfterMaintenance(w, r).durable.users && AfterMaintenance(w, r).durable.users[n] == w.durable.users[n]
  {
    MaintenanceStops(w, r);
    var stops := r.marks && (r.marksSave != Stored || r.marksApply.CrashDuring?);
    var stores := SomeoneIsDue(w.durable, DueBy(r.sample)) || r.sample.usage || r.sample.tier || r.burst;
    if !stops && (stores ==> r.first == Stored) {
      MaintenanceDecides(w, r);
    }
    hide AfterMaintenance;
    hide Configures;
    hide SomeoneIsDue;
  }

  lemma NextSparesOthers(w: World, r: Step, n: Name)
    requires n !in MayDisable(r) && n in w.durable.users
    ensures n in Next(w, r).durable.users && Next(w, r).durable.users[n] == w.durable.users[n]
  {
    match r
    case Realtime(_, _, _, _, _, _) => RealtimeDecides(w, r);
    case Maintenance(_, _, _, _, _, _, _, _, _, _, _, _, _, _, _) => MaintenanceSparesOthers(w, r, n);
    case Enforce(run) => EnforceDecides(w, run);
    case Sync(_, _, _, _, _, _, _) => SyncDecides(w, r);
    case ApplyCommand(_, _, _, _) => CommandDecides(w, r);
    case ServiceRestart =>
    hide AfterRealtime;
    hide AfterMaintenance;
    hide AfterEnforce;
    hide AfterSync;
    hide AfterCommand;
    hide Configures;
  }

  /** Over any runs, with any failures: a user that was never found due keeps its switch. */
  lemma {:induction false} NeverDueIsNeverTouched(w: World, steps: seq<Step>, n: Name)
    requires n in w.durable.users && forall r :: r in steps ==> n !in MayDisable(r)
    ensures n in Run(w, steps).durable.users && Run(w, steps).durable.users[n] == w.durable.users[n]
    decreases |steps|
  {
    hide Next;
    hide MayDisable;
    if steps != [] {
      NeverDueIsNeverTouched(w, steps[..|steps| - 1], n);
      NextSparesOthers(Run(w, steps[..|steps| - 1]), steps[|steps| - 1], n);
    }
  }

  // ------------------------------------------------------------------------------------------
  // The commands themselves
  // ------------------------------------------------------------------------------------------

  lemma SaveSame(w: World, o: SaveOutcome)
    ensures AfterSave(w, w.durable, o) == w
  {
  }

  lemma ApplyKeepsState(w: World, s: State, hidden: set<Name>, noReload: bool, o: ApplyOutcome)
    ensures AfterApply(w, s, hidden, noReload, o).durable == w.durable
  {
  }

  class Host {
    var durable: State
    var file: set<Name>
    var running: set<Name>

    constructor (durable: State, file: set<Name>, running: set<Name>)
      ensures Current() == World(durable, file, running)
    {
      this.durable, this.file, this.running := durable, file, running;
    }

    function Current(): World
      reads this
    {
      World(durable, file, running)
    }

    method Save(s: State, o: SaveOutcome) returns (status: Status)
      modifies this
      ensures Current() == AfterSave(old(Current()), s, o) && status == SaveStatus(o)
    {
      if o == Stored || o == StoredThenError || o == CrashAfter {
        durable := s;
      }
      return SaveStatus(o);
    }

    method Apply(s: State, hidden: set<Name>, noReload: bool, o: ApplyOutcome) returns (status: Status)
      modifies this
      ensures Current() == AfterApply(old(Current()), s, hidden, noReload, o) && status == ApplyStatus(o)
    {
      var users := Render(s, hidden);
      var newFile := o.Applied? || ((o.Undone? || o.CrashDuring?) && o.file);
      var newRunning := !noReload && (o.Applied? || ((o.Undone? || o.CrashDuring?) && o.running));
      if newFile {
        file := users;
      }
      if newRunning {
        running := users;
      }
      return ApplyStatus(o);
    }

    method RealtimeCycle(r: Step)
      requires r.Realtime?
      modifies this
      ensures Current() == AfterRealtime(old(Current()), r)
      ensures Safe(old(Current())) ==> Safe(Current())
    {
      hide Safe;
      if Safe(Current()) {
        RealtimeIsSafe(Current(), r);
      }
      hide AfterApply;
      var s := durable;
      var changed, eligibilityChanged := r.sample.usage, false;
      if r.sample.stats && DisablesSomeone(s, r.sample.due) {
        s := Disable(s, r.sample.due).(pending := true);
        eligibilityChanged, changed := true, true;
      }
      if r.sample.tier {
        s := s.(rate := true);
        changed := true;
      }
      if changed {
        var saved := Save(s, r.first);
        if saved != Go {
          return;
        }
      }
      if eligibilityChanged {
        var applied := Apply(s, r.hidden, false, r.apply);
        if applied != Go {
          return;
        }
        var cleared := Save(s.(burst := false, rate := false, pending := false), r.second);
        return;
      }
      if !r.sample.tier || s.pending || s.burst || !r.rates {
        return;
      }
      var cleared := Save(s.(rate := false), r.second);
    }

    method EnforceCommand(r: Enforcement)
      modifies this
      ensures Current() == AfterEnforce(old(Current()), r)
      ensures Safe(old(Current())) ==> Safe(Current())
    {
      hide Safe;
      if Safe(Current()) {
        EnforceIsSafe(Current(), r);
      }
      hide AfterApply;
      var s := durable;
      var changed := DisablesSomeone(s, r.due);
      if changed {
        s := Disable(s, r.due).(pending := true);
        var saved := Save(s, r.first);
        if saved != Go {
          return;
        }
      }
      if !changed && !s.pending {
        return;
      }
      if r.doApply {
        var applied := Apply(s, r.hidden, false, r.apply);
        if applied != Go {
          return;
        }
        var cleared := Save(s.(pending := false), r.second);
      }
    }

    method SyncCommand(r: Step)
      requires r.Sync?
      modifies this
      ensures Current() == AfterSync(old(Current()), r)
      ensures Safe(old(Current())) ==> Safe(Current())
    {
      hide Safe;
      if Safe(Current()) {
        SyncIsSafe(Current(), r);
      }
      hide AfterApply;
      var s := durable;
      if r.sample.stats && DisablesSomeone(s, r.sample.due) {
        s := Disable(s, r.sample.due).(pending := true);
      }
      if r.sample.tier {
        s := s.(rate := true);
      }
      var saved := Save(s, r.first);
      if saved != Go {
        return;
      }
      if r.doApply && s.pending {
        var applied := Apply(s, r.hidden, false, r.apply);
        if applied != Go {
          return;
        }
        var cleared := Save(s.(pending := false, rate := false), r.second);
        return;
      }
      if r.doApply && s.rate && r.rates {
        var cleared := Save(s.(rate := false), r.second);
      }
    }

    method ApplyConfig(r: Step)
      requires r.ApplyCommand?
      modifies this
      ensures Current() == AfterCommand(old(Current()), r)
      ensures Safe(old(Current())) ==> Safe(Current())
    {
      hide Safe;
      if Safe(Current()) {
        CommandIsSafe(Current(), r);
      }
      hide AfterApply;
      var s := durable;
      var applied := Apply(s, r.hidden, r.noReload, r.apply);
      if applied != Go {
        return;
      }
      if !r.noReload && (s.burst || s.rate || s.pending) {
        var cleared := Save(s.(burst := false, rate := false, pending := false), r.save);
      }
    }

    method DaemonCycle(r: Step)
      requires r.Maintenance?
      modifies this
      ensures Current() == AfterMaintenance(old(Current()), r)
      ensures Safe(old(Current())) ==> Safe(Current())
    {
      hide Safe;
      if Safe(Current()) {
        MaintenanceIsSafe(Current(), r);
      }
      hide AfterApply;
      hide AfterSave;
      hide AfterProtection;
      hide DisablesSomeone;
      hide Disable;
      SaveSame(Current(), r.marksSave);
      ApplyKeepsState(AfterSave(Current(), durable, r.marksSave), durable, r.marksHidden, false, r.marksApply);
      var s := durable;
      if r.marks {
        var saved := Save(s, r.marksSave);
        if saved != Go {
          return;
        }
        var applied := Apply(s, r.marksHidden, false, r.marksApply);
        if applied == Dead {
          return;
        }
      }
      var changed := r.sample.usage;
      if r.sample.stats && DisablesSomeone(s, r.sample.due) {
        s := Disable(s, r.sample.due).(pending := true);
        changed := true;
      }
      if r.burst {
        s := s.(burst := true);
        changed := true;
      }
      if r.sample.tier {
        s := s.(rate := true);
        changed := true;
      }
      if changed {
        var saved := Save(s, r.first);
        if saved != Go {
          return;
        }
      }
      Protect(s, r);
    }

    /** The rest of a maintenance run: apply what is asked for, then the rates, then enforcement. */
    method Protect(s: State, r: Step)
      requires r.Maintenance?
      modifies this
      ensures Current() == AfterProtection(old(Current()), s, r)
    {
      hide AfterApply;
      hide AfterSave;
      hide AfterEnforce;
      hide AfterRates;
      if !(r.policy || r.burst || s.burst || s.pending) {
        RefreshRates(s, r);
        return;
      }
      var applied := Apply(s, r.hidden, false, r.apply);
      if applied == Dead {
        return;
      }
      if applied == Fail {
        RefreshRates(s, r);
        return;
      }
      var clears := r.restart || s.burst || s.rate || s.pending;
      var cleared := s.(burst := false, rate := false, pending := false);
      if clears {
        var saved := Save(cleared, r.second);
        if saved == Dead {
          return;
        }
      }
      RefreshRates(cleared, r);
    }

    method RefreshRates(s: State, r: Step)
      requires r.Maintenance?
      modifies this
      ensures Current() == AfterRates(old(Current()), s, r)
    {
      hide AfterSave;
      hide AfterEnforce;
      if s.rate && r.rates {
        var saved := Save(s.(rate := false), r.third);
        if saved == Dead {
          return;
        }
      }
      if !s.pending {
        EnforceCommand(r.enforce.(doApply := true));
      }
    }
  }
}
