/**
 Whole runs of the analytics replica: the machine samples, the master polls it page by page, other
 machines' readings reach the same daily table, the machine's epoch may be drawn anew, and all of it
 interleaves. A poll reads the stored
 cursor once, asks for page after page, starts over when the answer is of another epoch or ends
 before the cursor, and can stop anywhere.
 */
module AnalyticsSync {
  import opened Wrappers
  import opened AnalyticsStore
  import opened AnalyticsReplica

  /**
   The machine and its epoch, the master's rows and cursor for it, the one daily table, and the poll in progress.
   `rest` is a ghost of the daily table: what the other members alone would have made of it.
   */
  datatype Sync = Sync(
    l: Ledger, epoch: string, conns: map<Stream, Conn>, daily: Daily, stored: Option<Cursor>, poll: Option<Cursor>, rest: Daily)

  datatype Step =
    | Sample(samples: seq<AnalyticsReplica.Sample>, now: Time)
    | Abandon(id: Stream, identity: Identity, now: Time)
    | Renew(epoch: string)
    | Begin
    | Poll(lookups: map<Identity, Lookup>, now: Time)
    | Stop
    | Other(theirs: map<Stream, Conn>, owner: Owner, e: Event)

  /** The answer does not continue what this poll has read: it starts over. */
  predicate StartsOver(poll: Cursor, page: Page) {
    (poll.epoch != "" && poll.epoch != page.epoch) || page.head < poll.sequence
  }

  predicate Enabled(control: Control, s: Sync, step: Step) {
    match step
    case Sample(_, now) => now >= RETENTION
    case Abandon(id, identity, now) => now > 0 && id in s.l.book.conns && identity in control.owners
    case Renew(epoch) =>
      && 0 < |epoch| <= 64
      && (s.stored.Some? ==> s.stored.value.epoch != epoch) && (s.poll.Some? ==> s.poll.value.epoch != epoch)
    case Begin => true
    case Poll(lookups, now) => s.poll.Some? && Resolved(control.owners, lookups, s.l.log, now)
    case Stop => true
    case Other(_, _, _) => true
  }

  function AfterPoll(s: Sync, lookups: map<Identity, Lookup>, now: Time): Sync
    requires s.poll.Some?
  {
    var poll := s.poll.value;
    var page := ReadPage(s.l.log, poll.sequence, s.epoch);
    if StartsOver(poll, page) then s.(poll := Some(Cursor(s.epoch, 0)))
    else
      var all := AbsorbTo(lookups, now, Book(s.conns, s.daily), CursorFor(s.stored, page), page, |page.events|);
      if all.Err? then s.(poll := None)
      else
        s.(conns := all.value.0.conns, daily := all.value.0.daily, stored := Some(NewCursor(page, all.value.1)),
        poll := if |page.events| < PAGE_LIMIT || page.next <= poll.sequence then None else Some(Cursor(s.epoch, page.next)))
  }

  function Next(control: Control, s: Sync, step: Step): Sync
    requires Enabled(control, s, step)
  {
    match step
    case Sample(samples, now) =>
      var taken := TakeAll(control, s.l, samples, now);
      if taken.Ok? then s.(l := taken.value) else s
    case Abandon(id, identity, now) => s.(l := LogAbandoned(s.l, id, identity, now))
    case Renew(epoch) => s.(epoch := epoch)
    case Begin => s.(poll := Some(if s.stored.Some? then s.stored.value else Cursor("", 0)))
    case Poll(lookups, now) => AfterPoll(s, lookups, now)
    case Stop => s.(poll := None)
    case Other(theirs, owner, e) =>
      s.(daily := Post(Book(theirs, s.daily), owner, e).daily, rest := Post(Book(theirs, s.rest), owner, e).daily)
  }

  /** The poll has passed nothing that the stored cursor has not. */
  predicate Behind(s: Sync) {
    s.poll.Some? && s.poll.value.sequence > 0 ==>
      s.stored.Some? && s.poll.value.epoch == s.stored.value.epoch && s.poll.value.sequence <= s.stored.value.sequence
  }

  /** The machine's log tells its tables, and the master has replayed a beginning of it. */
  ghost predicate Inv(control: Control, s: Sync) {
    && Faithful(control.owners, s.l)
    && 0 < |s.epoch| <= 64 && (s.stored.Some? ==> s.stored.value.epoch != "")
    && Anchored(s.l.log, s.epoch, s.stored) && Behind(s)
    && exists h: nat :: InStep(control.owners, s.l.log, s.epoch, s.stored, s.rest, Book(s.conns, s.daily), h)
  }

  // ------------------------------------------------------------------------------------------
  // Every step
  // ------------------------------------------------------------------------------------------

  lemma TakeExtends(control: Control, l: Ledger, s: AnalyticsReplica.Sample, now: Time)
    requires Take(control, l, s, now).Ok?
    ensures l.log <= Take(control, l, s, now).value.log
  {
  }

  lemma {:induction false} TakeAllExtends(control: Control, l: Ledger, samples: seq<AnalyticsReplica.Sample>, now: Time)
    requires TakeAll(control, l, samples, now).Ok?
    ensures l.log <= TakeAll(control, l, samples, now).value.log
    decreases |samples|
  {
    if samples != [] {
      TakeAllExtends(control, l, samples[..|samples| - 1], now);
      TakeExtends(control, TakeAll(control, l, samples[..|samples| - 1], now).value, samples[|samples| - 1], now);
    }
  }

  /** The machine logs more. */
  lemma GrowthKeepsInv(control: Control, s: Sync, l: Ledger)
    requires Inv(control, s) && Faithful(control.owners, l) && s.l.log <= l.log
    ensures Inv(control, s.(l := l))
  {
    hide InStep;
    var h: nat :| InStep(control.owners, s.l.log, s.epoch, s.stored, s.rest, Book(s.conns, s.daily), h);
    var more := l.log[|s.l.log|..];
    assert s.l.log + more == l.log;
    GrowthKeepsStep(control.owners, s.l.log, more, l.next, s.epoch, s.stored, s.rest, Book(s.conns, s.daily), h);
  }

  lemma OtherKeepsInv(control: Control, s: Sync, theirs: map<Stream, Conn>, owner: Owner, e: Event)
    requires Inv(control, s)
    ensures Inv(control, Next(control, s, Other(theirs, owner, e)))
  {
    hide Post;
    hide Replay;
    hide Faithful;
    hide Plus;
    var h: nat :| InStep(control.owners, s.l.log, s.epoch, s.stored, s.rest, Book(s.conns, s.daily), h);
    OthersPostBeside(s.rest, Replay(control.owners, s.l.log[..h]).daily, theirs, owner, e);
    var s' := Next(control, s, Other(theirs, owner, e));
    assert InStep(control.owners, s'.l.log, s'.epoch, s'.stored, s'.rest, Book(s'.conns, s'.daily), h);
  }

  /** A page that does not start over was asked for from a place the stored cursor has passed, or that does not count. */
  lemma PollIsInReach(s: Sync)
    requires Behind(s) && Anchored(s.l.log, s.epoch, s.stored) && s.poll.Some?
    requires var page := ReadPage(s.l.log, s.poll.value.sequence, s.epoch); page.epoch == s.epoch && page.head == Head(s.l.log)
    requires !StartsOver(s.poll.value, ReadPage(s.l.log, s.poll.value.sequence, s.epoch))
    ensures s.poll.value.sequence <= CursorFor(s.stored, ReadPage(s.l.log, s.poll.value.sequence, s.epoch))
    ensures s.poll.value.sequence <= Head(s.l.log)
  {
    hide ReadPage;
  }

  lemma PollKeepsInv(control: Control, s: Sync, lookups: map<Identity, Lookup>, now: Time)
    requires Inv(control, s) && Enabled(control, s, Poll(lookups, now))
    ensures Inv(control, AfterPoll(s, lookups, now))
  {
    hide InStep;
    hide Resolved;
    hide ReadPage;
    hide AbsorbTo;
    hide Position;
    hide CursorFor;
    var h: nat :| InStep(control.owners, s.l.log, s.epoch, s.stored, s.rest, Book(s.conns, s.daily), h);
    var poll := s.poll.value;
    var page := ReadPage(s.l.log, poll.sequence, s.epoch);
    ReadPageStretch(s.l.log, s.l.next, poll.sequence, s.epoch);
    if !StartsOver(poll, page) {
      PollIsInReach(s);
      MergeKeepsStep(control.owners, lookups, s.l.log, s.l.next, now, s.epoch, s.stored, s.rest, Book(s.conns, s.daily), h, poll.sequence);
    }
  }

  /** A cursor of another epoch says nothing, so the next poll takes the log from its beginning again. */
  lemma RenewKeepsInv(control: Control, s: Sync, epoch: string)
    requires Inv(control, s) && Enabled(control, s, Renew(epoch))
    ensures Inv(control, s.(epoch := epoch))
  {
    hide Faithful;
    hide Position;
    hide Beside;
    hide Replay;
    var h: nat :| InStep(control.owners, s.l.log, s.epoch, s.stored, s.rest, Book(s.conns, s.daily), h);
    assert InStep(control.owners, s.l.log, epoch, s.stored, s.rest, Book(s.conns, s.daily), h);
  }

  lemma NextKeepsInv(control: Control, s: Sync, step: Step)
    requires Inv(control, s) && Enabled(control, s, step)
    ensures Inv(control, Next(control, s, step))
  {
    hide InStep;
    hide Faithful;
    hide Post;
    match step
    case Sample(samples, now) =>
      if TakeAll(control, s.l, samples, now).Ok? {
        TakeAllKeepsFaithful(control, s.l, samples, now);
        TakeAllExtends(control, s.l, samples, now);
        GrowthKeepsInv(control, s, TakeAll(control, s.l, samples, now).value);
      }
    case Abandon(id, identity, now) =>
      AbandonKeepsFaithful(control, s.l, id, identity, now);
      GrowthKeepsInv(control, s, LogAbandoned(s.l, id, identity, now));
    case Poll(lookups, now) => PollKeepsInv(control, s, lookups, now);
    case Other(theirs, owner, e) => OtherKeepsInv(control, s, theirs, owner, e);
    case Renew(epoch) => RenewKeepsInv(control, s, epoch);
    case Begin =>
    case Stop =>
  }

  // ------------------------------------------------------------------------------------------
  // Whole runs
  // ------------------------------------------------------------------------------------------

  predicate Runnable(control: Control, s: Sync, steps: seq<Step>)
    decreases |steps|
  {
    steps != [] ==> Enabled(control, s, steps[0]) && Runnable(control, Next(control, s, steps[0]), steps[1..])
  }

  function Run(control: Control, s: Sync, steps: seq<Step>): Sync
    requires Runnable(control, s, steps)
    decreases |steps|
  {
    if steps == [] then s else Run(control, Next(control, s, steps[0]), steps[1..])
  }

  lemma {:induction false} RunKeepsInv(control: Control, s: Sync, steps: seq<Step>)
    requires Inv(control, s) && Runnable(control, s, steps)
    ensures Inv(control, Run(control, s, steps))
    decreases |steps|
  {
    hide Inv;
    if steps != [] {
      NextKeepsInv(control, s, steps[0]);
      RunKeepsInv(control, Next(control, s, steps[0]), steps[1..]);
    }
  }

  /** A machine and a master that know nothing of each other; the master may have a cursor of another epoch from before. */
  predicate Initial(s: Sync) {
    && s.l == Ledger(EMPTY, [], 1) && 0 < |s.epoch| <= 64 && s.conns == map[] && s.poll.None? && s.daily == s.rest
    && (s.stored.Some? ==> s.stored.value.epoch != "" && s.stored.value.epoch != s.epoch)
  }

  lemma InitialInv(control: Control, s: Sync)
    requires Initial(s)
    ensures Inv(control, s)
  {
    assert Plus(s.rest, map[]) == s.rest;
    assert InStep(control.owners, s.l.log, s.epoch, s.stored, s.rest, Book(s.conns, s.daily), 0);
  }

  /**
   After any interleaving of batches, restarts, new epochs, polls that stop anywhere and other members' readings:
   the master's rows and its share of the daily table are those of a beginning of the log. When the
   stored cursor has reached the end of the log they are the machine's own: the same connections with
   the same bytes, and exactly its daily rows next to the other members'.
   */
  lemma ReplicaCatchesUp(control: Control, s: Sync, steps: seq<Step>)
    requires Initial(s) && Runnable(control, s, steps)
    ensures var s' := Run(control, s, steps);
            && (exists h: nat :: h <= |s'.l.log| && Book(s'.conns, s'.daily) == Beside(s'.rest, Replay(control.owners, s'.l.log[..h])))
            && (s'.stored.Some? && s'.stored.value == Cursor(s'.epoch, Head(s'.l.log)) ==>
                  && s'.daily == Plus(s'.rest, s'.l.book.daily)
                  && SameBytes(Book(s'.conns, s'.l.book.daily), s'.l.book))
  {
    InitialInv(control, s);
    RunKeepsInv(control, s, steps);
    var s' := Run(control, s, steps);
    var h: nat :| InStep(control.owners, s'.l.log, s'.epoch, s'.stored, s'.rest, Book(s'.conns, s'.daily), h);
    if s'.stored.Some? && s'.stored.value == Cursor(s'.epoch, Head(s'.l.log)) {
      HeadBound(s'.l.log, s'.l.next);
      PositionSplits(s'.l.log, s'.l.next, Head(s'.l.log));
      CaughtUp(control.owners, s'.l, s'.epoch, s'.stored, s'.rest, Book(s'.conns, s'.daily), h);
    }
  }

  // ------------------------------------------------------------------------------------------
  // A poll that is left alone
  // ------------------------------------------------------------------------------------------

  /** Up to `n` requests of the poll in progress, with nothing else happening. */
  function Polled(s: Sync, lookups: map<Identity, Lookup>, now: Time, n: nat): Sync
    decreases n
  {
    if n == 0 || s.poll.None? then s else Polled(AfterPoll(s, lookups, now), lookups, now, n - 1)
  }

  /** A request starts the poll over, ends it at the head of the log, or takes it on by a full page. */
  lemma RequestAdvances(control: Control, s: Sync, lookups: map<Identity, Lookup>, now: Time)
    requires Inv(control, s) && Enabled(control, s, Poll(lookups, now))
    ensures var s', log := AfterPoll(s, lookups, now), s.l.log;
            var over := (s.poll.value.epoch != "" && s.poll.value.epoch != s.epoch) || s.poll.value.sequence > Head(log);
            && s'.l == s.l && s'.epoch == s.epoch
            && (over ==> s'.poll == Some(Cursor(s.epoch, 0)))
            && (!over && s'.poll.None? ==> s'.stored == Some(Cursor(s.epoch, Head(log))))
            && (!over && s'.poll.Some? ==>
                  && s'.poll.value.epoch == s.epoch && s'.poll.value.sequence <= Head(log)
                  && Position(log, s'.poll.value.sequence) == Position(log, s.poll.value.sequence) + PAGE_LIMIT)
  {
    hide InStep;
    hide Resolved;
    hide ReadPage;
    hide AbsorbTo;
    hide Position;
    hide CursorFor;
    hide Faithful;
    var h: nat :| InStep(control.owners, s.l.log, s.epoch, s.stored, s.rest, Book(s.conns, s.daily), h);
    var poll := s.poll.value;
    var page := ReadPage(s.l.log, poll.sequence, s.epoch);
    FaithfulIsOrdered(control, s);
    ReadPageStretch(s.l.log, s.l.next, poll.sequence, s.epoch);
    if !StartsOver(poll, page) {
      PollIsInReach(s);
      MergeKeepsStep(control.owners, lookups, s.l.log, s.l.next, now, s.epoch, s.stored, s.rest, Book(s.conns, s.daily), h, poll.sequence);
      PageEnds(s.l.log, s.l.next, poll.sequence, s.epoch);
      var taken := AbsorbTo(lookups, now, Book(s.conns, s.daily), CursorFor(s.stored, page), page, |page.events|).value;
      AtTheHead(s.l.log, s.l.next, NewCursor(page, taken.1).sequence);
    }
  }

  lemma FaithfulIsOrdered(control: Control, s: Sync)
    requires Faithful(control.owners, s.l)
    ensures Ordered(s.l.log, s.l.next) && Accepted(control.owners, s.l.log)
  {
  }

  /** A page that is not full ends the log, and a full one ends behind the cursor. */
  lemma PageEnds(log: seq<Event>, next: nat, after: nat, epoch: string)
    requires Ordered(log, next) && 0 < |epoch| <= 64 && after <= Head(log)
    ensures var page := ReadPage(log, after, epoch);
            && page.next <= Head(log)
            && (page.events != [] ==> page.next > after)
  {
    PositionSplits(log, next, after);
    HeadBound(log, next);
  }

  lemma AtTheHead(log: seq<Event>, next: nat, cursor: nat)
    requires Ordered(log, next) && cursor <= Head(log)
    ensures Position(log, cursor) == |log| ==> cursor == Head(log)
  {
    PositionSplits(log, next, cursor);
  }

  /** Full pages add up: a poll in progress ends at the head of the log after so many requests. */
  lemma {:induction false} RequestsReachHead(control: Control, s: Sync, lookups: map<Identity, Lookup>, now: Time, n: nat)
    requires Inv(control, s) && Enabled(control, s, Poll(lookups, now))
    requires s.poll.value.epoch in {"", s.epoch} && s.poll.value.sequence <= Head(s.l.log)
    requires Position(s.l.log, s.poll.value.sequence) + n * PAGE_LIMIT > |s.l.log|
    ensures var s' := Polled(s, lookups, now, n);
            s'.poll.None? && s'.l == s.l && s'.epoch == s.epoch && s'.stored == Some(Cursor(s.epoch, Head(s.l.log)))
    ensures Inv(control, Polled(s, lookups, now, n))
    decreases n
  {
    hide Inv;
    hide Resolved;
    hide AfterPoll;
    hide Position;
    RequestAdvances(control, s, lookups, now);
    NextKeepsInv(control, s, Poll(lookups, now));
    if AfterPoll(s, lookups, now).poll.Some? {
      RequestsReachHead(control, AfterPoll(s, lookups, now), lookups, now, n - 1);
    }
  }

  /** Wherever a poll stands, it starts over at most once. */
  lemma PollReachesHead(control: Control, s: Sync, lookups: map<Identity, Lookup>, now: Time, n: nat)
    requires Inv(control, s) && Enabled(control, s, Poll(lookups, now))
    requires n >= 2 && (n - 1) * PAGE_LIMIT > |s.l.log|
    ensures Inv(control, Polled(s, lookups, now, n))
    ensures var s' := Polled(s, lookups, now, n);
            s'.poll.None? && s'.l == s.l && s'.epoch == s.epoch && s'.stored == Some(Cursor(s.epoch, Head(s.l.log)))
  {
    hide Inv;
    hide Resolved;
    hide AfterPoll;
    hide Position;
    RequestAdvances(control, s, lookups, now);
    NextKeepsInv(control, s, Poll(lookups, now));
    var s' := AfterPoll(s, lookups, now);
    if s'.poll.Some? {
      FromZero(control, s');
      RequestsReachHead(control, s', lookups, now, n - 1);
    }
  }

  lemma FromZero(control: Control, s: Sync)
    requires Inv(control, s)
    ensures Position(s.l.log, 0) == 0
  {
    ZeroPosition(s.l.log, s.l.next);
  }

  /**
   After any interleaving, a poll that is left alone ends within two requests more than the log has
   full pages, and the master then holds the machine's own connections and days.
   */
  lemma PollCatchesUp(control: Control, s: Sync, steps: seq<Step>, lookups: map<Identity, Lookup>, now: Time, n: nat)
    requires Initial(s) && Runnable(control, s, steps)
    requires var s' := Run(control, s, steps);
             s'.poll.Some? && Resolved(control.owners, lookups, s'.l.log, now) && n >= |s'.l.log| / PAGE_LIMIT + 2
    ensures var l, s' := Run(control, s, steps).l, Polled(Run(control, s, steps), lookups, now, n);
            && s'.poll.None? && s'.stored == Some(Cursor(s'.epoch, Head(l.log)))
            && s'.daily == Plus(s'.rest, l.book.daily) && SameBytes(Book(s'.conns, l.book.daily), l.book)
  {
    hide Inv;
    hide Initial;
    hide Polled;
    hide Resolved;
    hide SameBytes;
    hide Plus;
    hide Next;
    InitialInv(control, s);
    RunKeepsInv(control, s, steps);
    PollReachesHead(control, Run(control, s, steps), lookups, now, n);
    HeadIsCaughtUp(control, Polled(Run(control, s, steps), lookups, now, n));
  }

  lemma HeadIsCaughtUp(control: Control, s: Sync)
    requires Inv(control, s) && s.stored == Some(Cursor(s.epoch, Head(s.l.log)))
    ensures s.daily == Plus(s.rest, s.l.book.daily) && SameBytes(Book(s.conns, s.l.book.daily), s.l.book)
  {
    var h: nat :| InStep(control.owners, s.l.log, s.epoch, s.stored, s.rest, Book(s.conns, s.daily), h);
    HeadBound(s.l.log, s.l.next);
    PositionSplits(s.l.log, s.l.next, Head(s.l.log));
    CaughtUp(control.owners, s.l, s.epoch, s.stored, s.rest, Book(s.conns, s.daily), h);
  }
}
