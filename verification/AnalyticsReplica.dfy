/**
 The analytics log of one machine and its replica on the master. The log is read in pages from a
 cursor that may restart from the beginning; the replica must end up with the same byte totals and
 daily rows as the machine itself.
 */
module AnalyticsReplica {
  import opened Wrappers
  import opened AnalyticsStore
  import MapSum

  const RETENTION := 30 * DAY_NS
  const SKEW := 300_000_000_000
  const PAGE_LIMIT := 250

  /** Logins resolve to node identities, and identities to the owner of their node. */
  datatype Control = Control(logins: map<string, Identity>, owners: map<Identity, Owner>)

  datatype Sample = Sample(auth: string, event: Event)

  /** A machine's own rows, its log and the next sequence number. */
  datatype Ledger = Ledger(book: Book, log: seq<Event>, next: nat)

  // ------------------------------------------------------------------------------------------
  // The machine: sampling
  // ------------------------------------------------------------------------------------------

  predicate ValidSample(s: Sample, now: Time) {
    0 < |s.event.id| <= 160 && s.event.up >= 0 && s.event.down >= 0
    && s.event.started > 0 && s.event.started <= now + SKEW && !s.event.abandoned
  }

  predicate Ignored(control: Control, s: Sample, now: Time) {
    || (s.event.closed != 0 && s.event.closed < now - RETENTION)
    || !s.event.validDomain
    || s.auth !in control.logins || control.logins[s.auth] !in control.owners
  }

  /** The event a sample turns into. */
  function EventFor(control: Control, s: Sample, now: Time): Event
    requires !Ignored(control, s, now)
  {
    s.event.(identity := control.logins[s.auth], observed := now)
  }

  /** One sample of a batch. */
  function Take(control: Control, l: Ledger, s: Sample, now: Time): Result<Ledger, StoreError> {
    if !ValidSample(s, now) then Err(InvalidSample)
    else if Ignored(control, s, now) then Ok(l)
    else
      var e := EventFor(control, s, now);
      var owner := control.owners[e.identity];
      if Rejected(l.book, owner, e) then Err(OwnerChanged)
      else if Logged(l.book, e) then
        Ok(Ledger(Post(l.book, owner, e),
                  l.log + [e.(domain := DomainFor(l.book.conns, e), sequence := l.next)], l.next + 1))
      else Ok(l.(book := Post(l.book, owner, e)))
  }

  function TakeAll(control: Control, l: Ledger, samples: seq<Sample>, now: Time): Result<Ledger, StoreError>
    decreases |samples|
  {
    if samples == [] then Ok(l)
    else
      match TakeAll(control, l, samples[..|samples| - 1], now)
      case Err(error) => Err(error)
      case Ok(l') => Take(control, l', samples[|samples| - 1], now)
  }

  /** A log entry that says a known connection was lost without an answer. */
  function AbandonedEvent(l: Ledger, id: Stream, identity: Identity, now: Time): Event
    requires id in l.book.conns
  {
    var c := l.book.conns[id];
    Event(l.next, id, identity, c.domain, true, c.started, 0, c.up, c.down, now, true)
  }

  function LogAbandoned(l: Ledger, id: Stream, identity: Identity, now: Time): Ledger
    requires id in l.book.conns
  {
    l.(log := l.log + [AbandonedEvent(l, id, identity, now)], next := l.next + 1)
  }

  // ------------------------------------------------------------------------------------------
  // Replaying a log
  // ------------------------------------------------------------------------------------------

  /** The tables a log describes. */
  function Replay(owners: map<Identity, Owner>, log: seq<Event>): Book
    decreases |log|
  {
    if log == [] then EMPTY
    else
      var b, e := Replay(owners, log[..|log| - 1]), log[|log| - 1];
      if e.identity in owners then Post(b, owners[e.identity], e) else b
  }

  /** Every entry was taken when it was logged. */
  predicate Accepted(owners: map<Identity, Owner>, log: seq<Event>)
    decreases |log|
  {
    log != [] ==>
      var b, e := Replay(owners, log[..|log| - 1]), log[|log| - 1];
      && Accepted(owners, log[..|log| - 1])
      && e.identity in owners && !Rejected(b, owners[e.identity], e) && (e.abandoned || !Stale(b.conns, e))
  }

  predicate Ordered(log: seq<Event>, next: nat) {
    && (forall i :: 0 <= i < |log| ==> 0 < log[i].sequence < next)
    && (forall i, k :: 0 <= i < k < |log| ==> log[i].sequence < log[k].sequence)
  }

  /** Same connections with the same bytes, and the same daily table. */
  predicate SameBytes(a: Book, b: Book) {
    && a.daily == b.daily
    && a.conns.Keys == b.conns.Keys
    && (forall id :: id in a.conns ==>
      && a.conns[id].owner == b.conns[id].owner && a.conns[id].domain == b.conns[id].domain && a.conns[id].started == b.conns[id].started
      && a.conns[id].up == b.conns[id].up && a.conns[id].down == b.conns[id].down
      && (a.conns[id].closed > 0 <==> b.conns[id].closed > 0))
  }

  predicate RowsFit(b: Book) {
    forall id :: id in b.conns ==>
      0 < |id| <= 160 && b.conns[id].started > 0 && b.conns[id].up >= 0 && b.conns[id].down >= 0 && b.conns[id].closed >= 0
  }

  /** The log of a machine tells exactly the bytes in its tables. */
  predicate Faithful(owners: map<Identity, Owner>, l: Ledger) {
    && l.next > 0 && Ordered(l.log, l.next)
    && Accepted(owners, l.log)
    && RowsFit(l.book)
    && SameBytes(l.book, Replay(owners, l.log))
  }

  /** The entry logged for a reading is judged by the replayed tables as the reading was by the machine's. */
  lemma JudgedAlike(a: Book, b: Book, owner: Owner, e: Event, domain: string, sequence: nat)
    requires SameBytes(a, b)
    ensures var e' := e.(domain := domain, sequence := sequence);
            && (Rejected(a, owner, e) <==> Rejected(b, owner, e'))
            && (Stale(a.conns, e) <==> Stale(b.conns, e'))
            && (MovesBytes(a.conns, e) <==> MovesBytes(b.conns, e'))
            && Addition(a.conns, e) == Addition(b.conns, e')
            && (domain == DomainFor(a.conns, e) ==> KeyFor(a.conns, owner, e) == KeyFor(b.conns, owner, e'))
  {
    hide WellFormed;
    assert WellFormed(e.(domain := domain, sequence := sequence)) == WellFormed(e) by { NamesDoNotMatter(e, domain, sequence); }
  }

  lemma NamesDoNotMatter(e: Event, domain: string, sequence: nat)
    ensures WellFormed(e.(domain := domain, sequence := sequence)) == WellFormed(e)
  {
  }

  /** An accepted reading does the same to tables that agree on bytes. */
  lemma PostSameBytes(a: Book, b: Book, owner: Owner, e: Event, domain: string, sequence: nat)
    requires SameBytes(a, b) && !Rejected(a, owner, e) && RowsFit(a)
    requires domain == DomainFor(a.conns, e)
    ensures var e' := e.(domain := domain, sequence := sequence);
            && !Rejected(b, owner, e')
            && (Stale(a.conns, e) <==> Stale(b.conns, e'))
            && (Logged(a, e) ==> SameBytes(Post(a, owner, e), Post(b, owner, e')))
            && (!Logged(a, e) ==> SameBytes(Post(a, owner, e), b))
  {
    JudgedAlike(a, b, owner, e, domain, sequence);
    hide Rejected;
    hide Addition;
    hide KeyFor;
    hide AddDay;
  }

  /** A reading is logged exactly when it moves the bytes of a connection, opens one or closes one. */
  lemma LoggedIsNews(b: Book, owner: Owner, e: Event)
    requires RowsFit(b) && !Rejected(b, owner, e)
    ensures Logged(b, e) <==> !SameBytes(Post(b, owner, e), b)
  {
    hide AddDay;
    if !Logged(b, e) && !e.abandoned && !Stale(b.conns, e) {
      assert e.id in b.conns;
    }
  }

  /** What is logged of a lost connection is the connection's own last reading. */
  lemma AbandonedIsItsReading(l: Ledger, id: Stream, identity: Identity, now: Time)
    requires id in l.book.conns
    ensures var l' := LogAbandoned(l, id, identity, now);
            && l'.book == l.book && l'.next == l.next + 1 && |l'.log| == |l.log| + 1 && l.log <= l'.log
            && var e := l'.log[|l.log|];
               && e.sequence == l.next && e.id == id && e.identity == identity && e.observed == now && e.abandoned && e.closed == 0
               && e.up == l.book.conns[id].up && e.down == l.book.conns[id].down
               && e.domain == l.book.conns[id].domain && e.started == l.book.conns[id].started
  {
  }

  lemma PostRowsFit(b: Book, owner: Owner, e: Event)
    requires RowsFit(b) && !Rejected(b, owner, e) && e.closed >= 0
    ensures RowsFit(Post(b, owner, e))
  {
  }

  /** An entry that is accepted after a log extends it. */
  lemma ExtendLog(owners: map<Identity, Owner>, log: seq<Event>, e: Event, next: nat)
    requires Accepted(owners, log) && Ordered(log, next) && next > 0 && e.sequence == next
    requires e.identity in owners && !Rejected(Replay(owners, log), owners[e.identity], e)
    requires e.abandoned || !Stale(Replay(owners, log).conns, e)
    ensures Accepted(owners, log + [e]) && Ordered(log + [e], next + 1)
    ensures Replay(owners, log + [e]) == Post(Replay(owners, log), owners[e.identity], e)
  {
    assert (log + [e])[..|log|] == log;
  }

  /** Sampling keeps the log faithful, whatever the samples are. */
  lemma TakeKeepsFaithful(control: Control, l: Ledger, s: Sample, now: Time)
    requires Faithful(control.owners, l) && now >= RETENTION
    requires Take(control, l, s, now).Ok?
    ensures Faithful(control.owners, Take(control, l, s, now).value)
  {
    hide Replay;
    hide Accepted;
    hide SameBytes;
    hide RowsFit;
    hide Post;
    hide Ordered;
    hide Logged;
    hide Stale;
    hide Rejected;
    if ValidSample(s, now) && !Ignored(control, s, now) {
      var e := EventFor(control, s, now);
      var owner := control.owners[e.identity];
      PostRowsFit(l.book, owner, e);
      PostSameBytes(l.book, Replay(control.owners, l.log), owner, e, DomainFor(l.book.conns, e), l.next);
      LoggedIsFresh(l.book, e);
      if Logged(l.book, e) {
        ExtendLog(control.owners, l.log, e.(domain := DomainFor(l.book.conns, e), sequence := l.next), l.next);
      }
    }
  }

  /**
   A sample within bounds is not counted if its connection was closed more than 30 days ago, its
   domain is none or its login is nobody's; else it is refused exactly when its connection has
   another owner, and counts as a reading of the connection at the time of the batch.
   */
  lemma TakeCounts(control: Control, l: Ledger, s: Sample, now: Time)
    requires 0 < |s.event.id| <= 160 && s.event.up >= 0 && s.event.down >= 0 && !s.event.abandoned
    requires 0 < s.event.started <= now + 300_000_000_000 && now > 0
    ensures var e, conns := s.event, l.book.conns;
            var counted := (e.closed == 0 || e.closed >= now - 30 * DAY_NS) && e.validDomain
                           && s.auth in control.logins && control.logins[s.auth] in control.owners;
            && (!counted ==> Take(control, l, s, now) == Ok(l))
            && (counted ==>
                  var owner := control.owners[control.logins[s.auth]];
                  && (Take(control, l, s, now).Ok? <==> e.id !in conns || conns[e.id].owner == owner)
                  && (Take(control, l, s, now).Ok? && (e.id in conns ==> conns[e.id].up <= e.up && conns[e.id].down <= e.down) ==>
                        Holds(conns, Take(control, l, s, now).value.book.conns, owner, e.(observed := now))))
  {
    hide AddDay;
    hide Holds;
    if !Ignored(control, s, now) {
      var e := EventFor(control, s, now);
      var owner := control.owners[e.identity];
      if e.id !in l.book.conns || (l.book.conns[e.id].owner == owner && l.book.conns[e.id].up <= e.up && l.book.conns[e.id].down <= e.down) {
        PostBooks(l.book, owner, e, now / DAY_NS);
        HoldsForAny(l.book.conns, Post(l.book, owner, e).conns, owner, e, s.event.(observed := now));
      }
    }
  }

  lemma HoldsForAny(before: map<Stream, Conn>, after: map<Stream, Conn>, owner: Owner, e: Event, x: Event)
    requires Holds(before, after, owner, e) && x == e.(identity := x.identity)
    ensures Holds(before, after, owner, x)
  {
  }

  /** A sample out of bounds is refused. */
  lemma TakeRefuses(control: Control, l: Ledger, s: Sample, now: Time)
    ensures Take(control, l, s, now) == Err(InvalidSample) <==>
            || |s.event.id| == 0 || |s.event.id| > 160 || s.event.up < 0 || s.event.down < 0 || s.event.abandoned
            || s.event.started <= 0 || s.event.started > now + 300_000_000_000
  {
  }

  lemma LoggedIsFresh(b: Book, e: Event)
    ensures Logged(b, e) ==> !Stale(b.conns, e) && !e.abandoned
  {
  }

  lemma {:induction false} TakeAllKeepsFaithful(control: Control, l: Ledger, samples: seq<Sample>, now: Time)
    requires Faithful(control.owners, l) && now >= RETENTION
    requires TakeAll(control, l, samples, now).Ok?
    ensures Faithful(control.owners, TakeAll(control, l, samples, now).value)
    decreases |samples|
  {
    if samples != [] {
      TakeAllKeepsFaithful(control, l, samples[..|samples| - 1], now);
      TakeKeepsFaithful(control, TakeAll(control, l, samples[..|samples| - 1], now).value, samples[|samples| - 1], now);
    }
  }

  lemma AbandonKeepsFaithful(control: Control, l: Ledger, id: Stream, identity: Identity, now: Time)
    requires Faithful(control.owners, l) && now > 0 && id in l.book.conns && identity in control.owners
    ensures Faithful(control.owners, LogAbandoned(l, id, identity, now))
  {
    ExtendLog(control.owners, l.log, AbandonedEvent(l, id, identity, now), l.next);
  }

  // ------------------------------------------------------------------------------------------
  // Reading again changes nothing
  // ------------------------------------------------------------------------------------------

  /** The rows of a replayed log are at least as recent as every entry of it. */
  lemma {:induction false} ReplayCovers(owners: map<Identity, Owner>, log: seq<Event>, i: nat)
    requires Accepted(owners, log) && i < |log| && !log[i].abandoned
    ensures log[i].identity in owners
    ensures var conns := Replay(owners, log).conns;
            && log[i].id in conns
            && conns[log[i].id].owner == owners[log[i].identity]
            && conns[log[i].id].up >= log[i].up && conns[log[i].id].down >= log[i].down
            && conns[log[i].id].closed >= log[i].closed && conns[log[i].id].lastSeen >= log[i].observed
    decreases |log|
  {
    if i < |log| - 1 {
      ReplayCovers(owners, log[..|log| - 1], i);
    }
  }

  lemma {:induction false} AcceptedPrefix(owners: map<Identity, Owner>, log: seq<Event>, h: nat)
    requires Accepted(owners, log) && h <= |log|
    ensures Accepted(owners, log[..h])
    ensures h < |log| ==>
              && Accepted(owners, log[..h + 1])
              && log[h].identity in owners
              && !Rejected(Replay(owners, log[..h]), owners[log[h].identity], log[h])
              && Replay(owners, log[..h + 1]) == Post(Replay(owners, log[..h]), owners[log[h].identity], log[h])
    decreases |log|
  {
    if h == |log| {
      assert log[..h] == log;
    } else if h == |log| - 1 {
      assert log[..h + 1] == log;
    } else {
      var front := log[..|log| - 1];
      assert front[..h] == log[..h] && front[..h + 1] == log[..h + 1];
      AcceptedPrefix(owners, front, h);
    }
  }

  /** Posting an entry that was already replayed leaves every row and every day as it was. */
  lemma RepostIsIdle(owners: map<Identity, Owner>, log: seq<Event>, h: nat, i: nat)
    requires Accepted(owners, log) && i < h <= |log|
    ensures log[i].identity in owners
    ensures !Rejected(Replay(owners, log[..h]), owners[log[i].identity], log[i])
    ensures Post(Replay(owners, log[..h]), owners[log[i].identity], log[i]) == Replay(owners, log[..h])
  {
    AcceptedPrefix(owners, log, h);
    AcceptedPrefix(owners, log, i);
    var b := Replay(owners, log[..h]);
    if !log[i].abandoned {
      ReplayCovers(owners, log[..h], i);
      assert log[..h][i] == log[i];
      if !Stale(b.conns, log[i]) {
        assert PostConn(b.conns, owners[log[i].identity], log[i]) == b.conns;
      }
    }
  }

  // ------------------------------------------------------------------------------------------
  // Sharing the daily table
  // ------------------------------------------------------------------------------------------

  /** The daily table of a master: what other members contributed and what this one did. */
  function Plus(rest: Daily, d: Daily): Daily {
    map k | k in rest.Keys + d.Keys ::
      if k !in d then rest[k]
      else if k !in rest then d[k]
      else Day(rest[k].up + d[k].up, rest[k].down + d[k].down, rest[k].connections + d[k].connections,
               Max(rest[k].lastSeen, d[k].lastSeen))
  }

  function Beside(rest: Daily, b: Book): Book {
    Book(b.conns, Plus(rest, b.daily))
  }

  lemma PostBeside(rest: Daily, b: Book, owner: Owner, e: Event)
    ensures Post(Beside(rest, b), owner, e) == Beside(rest, Post(b, owner, e))
    ensures Rejected(Beside(rest, b), owner, e) == Rejected(b, owner, e)
  {
    if !e.abandoned && !Stale(b.conns, e) && MovesBytes(b.conns, e) {
      var k, x := KeyFor(b.conns, owner, e), Addition(b.conns, e);
      assert AddDay(Plus(rest, b.daily), k, x) == Plus(rest, AddDay(b.daily, k, x));
    }
  }

  /** Whatever another member posts, this one's share of the daily table is untouched. */
  lemma OthersPostBeside(rest: Daily, mine: Daily, theirs: map<Stream, Conn>, owner: Owner, e: Event)
    ensures Post(Book(theirs, Plus(rest, mine)), owner, e).daily == Plus(Post(Book(theirs, rest), owner, e).daily, mine)
  {
    var k, x := KeyFor(theirs, owner, e), Addition(theirs, e);
    AddBeside(rest, mine, k, x);
    hide AddDay;
    hide Plus;
    hide KeyFor;
    hide Addition;
  }

  lemma AddBeside(rest: Daily, mine: Daily, k: DayKey, x: Day)
    ensures AddDay(Plus(rest, mine), k, x) == Plus(AddDay(rest, k, x), mine)
  {
  }

  // ------------------------------------------------------------------------------------------
  // Pages
  // ------------------------------------------------------------------------------------------

  datatype Page = Page(events: seq<Event>, epoch: string, head: nat, next: nat, gap: bool)

  datatype Cursor = Cursor(epoch: string, sequence: nat)

  /** How many entries a cursor has passed. */
  function Position(log: seq<Event>, cursor: nat): (n: nat)
    ensures n <= |log|
    decreases |log|
  {
    if log == [] then 0
    else if log[|log| - 1].sequence <= cursor then |log|
    else Position(log[..|log| - 1], cursor)
  }

  lemma {:induction false} PositionSplits(log: seq<Event>, next: nat, cursor: nat)
    requires Ordered(log, next)
    ensures forall i :: 0 <= i < Position(log, cursor) ==> log[i].sequence <= cursor
    ensures forall i :: Position(log, cursor) <= i < |log| ==> log[i].sequence > cursor
    decreases |log|
  {
    if log != [] && log[|log| - 1].sequence > cursor {
      PositionSplits(log[..|log| - 1], next, cursor);
    }
  }

  function Head(log: seq<Event>): nat {
    if log == [] then 0 else log[|log| - 1].sequence
  }

  /** The page a machine answers with; a cursor beyond its head starts over. */
  function ReadPage(log: seq<Event>, after: nat, epoch: string): Page {
    var from := if after > Head(log) then 0 else after;
    var start := Position(log, from);
    var stop := if start + PAGE_LIMIT <= |log| then start + PAGE_LIMIT else |log|;
    Page(log[start..stop], epoch, Head(log), if start == stop then from else log[stop - 1].sequence,
         after > Head(log) || (log != [] && log[0].sequence > from + 1))
  }

  // ------------------------------------------------------------------------------------------
  // The master: merging a page
  // ------------------------------------------------------------------------------------------

  /** What the master knows about a node identity in an event. */
  datatype Lookup = ForeignRoute | Found(owner: Owner)

  predicate Expired(e: Event, now: Time) {
    e.closed > 0 && e.closed < now - RETENTION
  }

  /** One event of a page after the duplicate and order checks. */
  function Absorb(lookups: map<Identity, Lookup>, now: Time, b: Book, e: Event): Result<Book, StoreError> {
    if e.observed <= 0 || e.observed > now + SKEW then Err(InvalidTime)
    else if Expired(e, now) || e.identity !in lookups then Ok(b)
    else if lookups[e.identity].ForeignRoute? then Err(WrongRoute)
    else if Rejected(b, lookups[e.identity].owner, e) then Err(OwnerChanged)
    else Ok(Post(b, lookups[e.identity].owner, e))
  }

  /** The first `i` events of a page, from a cursor: the tables and the last sequence taken. */
  function AbsorbTo(lookups: map<Identity, Lookup>, now: Time, b: Book, cursor: nat, page: Page, i: nat): Result<(Book, nat), StoreError>
    requires i <= |page.events|
    decreases i
  {
    if i == 0 then Ok((b, cursor))
    else
      match AbsorbTo(lookups, now, b, cursor, page, i - 1)
      case Err(error) => Err(error)
      case Ok(before) =>
        var e := page.events[i - 1];
        if e.sequence <= cursor then Ok(before)
        else if e.sequence <= before.1 || e.sequence > page.next then Err(InvalidPage)
        else
          match Absorb(lookups, now, before.0, e)
          case Err(error) => Err(error)
          case Ok(b') => Ok((b', e.sequence))
  }

  predicate Resets(stored: Option<Cursor>, page: Page) {
    stored.Some? && ((stored.value.epoch != "" && stored.value.epoch != page.epoch) || page.head < stored.value.sequence)
  }

  function CursorFor(stored: Option<Cursor>, page: Page): nat {
    if stored.None? || Resets(stored, page) then 0 else stored.value.sequence
  }

  predicate PageFits(page: Page) {
    |page.events| <= PAGE_LIMIT && page.head >= page.next && 0 < |page.epoch| <= 64
  }

  /** The analytics tables of one machine; the log holds its own readings only. */
  class Tables {
    var conns: map<Member, map<Stream, Conn>>
    var daily: Daily
    var log: seq<Event>
    var next: nat
    var cursors: map<Member, Cursor>

    constructor ()
      ensures conns == map[] && daily == map[] && log == [] && next == 1 && cursors == map[]
    {
      conns, daily, log, next, cursors := map[], map[], [], 1, map[];
    }

    function LedgerOf(member: Member): Ledger
      reads this
    {
      Ledger(BookOf(member), log, next)
    }

    function BookOf(member: Member): Book
      reads this
    {
      Book(if member in conns then conns[member] else map[], daily)
    }

    function CursorOf(member: Member): Option<Cursor>
      reads this
    {
      if member in cursors then Some(cursors[member]) else None
    }

    /** Adds to one day, which begins with what is added. */
    method AddDaily(k: DayKey, up: int, down: int, count: int, seen: Time)
      modifies this`daily
      ensures daily == AddDay(old(daily), k, Day(up, down, count, seen))
    {
      if k in daily {
        var d := daily[k];
        daily := daily[k := Day(d.up + up, d.down + down, d.connections + count, Max(d.lastSeen, seen))];
      } else {
        daily := daily[k := Day(up, down, count, seen)];
      }
    }

    /** Posts one reading for a member and, when asked to, logs it if it changed something. */
    method Upsert(member: Member, owner: Owner, e: Event, logIt: bool) returns (ok: bool)
      modifies this`conns, this`daily, this`log, this`next
      ensures ok <==> !Rejected(old(BookOf(member)), owner, e)
      ensures BookOf(member) == if ok then Post(old(BookOf(member)), owner, e) else old(BookOf(member))
      ensures if ok && logIt && Logged(old(BookOf(member)), e)
              then log == old(log) + [e.(domain := DomainFor(old(BookOf(member)).conns, e), sequence := old(next))] && next == old(next) + 1
              else log == old(log) && next == old(next)
      ensures member in old(conns) ==> member in conns
      ensures forall m :: m != member ==> (m in conns <==> m in old(conns)) && (m in conns ==> conns[m] == old(conns)[m])
    {
      hide AddDay;
      var rows := if member in conns then conns[member] else map[];
      if e.up < 0 || e.down < 0 || e.started <= 0 || e.observed <= 0 || |e.id| == 0 || |e.id| > 160 || !e.validDomain {
        return false;
      }
      if e.abandoned {
        return true;
      }
      var isNew := e.id !in rows;
      if !isNew && rows[e.id].owner != owner {
        return false;
      }
      var domain := if isNew then e.domain else rows[e.id].domain;
      var up, down := if isNew then 0 else rows[e.id].up, if isNew then 0 else rows[e.id].down;
      var oldClosed := if isNew then 0 else rows[e.id].closed;
      if !isNew && (e.up < up || e.down < down) {
        return true;
      }
      var deltaUp, deltaDown := e.up - up, e.down - down;
      if isNew {
        rows := rows[e.id := Conn(owner, domain, e.started, e.closed, e.up, e.down, e.observed)];
      } else {
        var c := rows[e.id];
        rows := rows[e.id := c.(up := e.up, down := e.down, closed := Max(c.closed, e.closed), lastSeen := Max(c.lastSeen, e.observed))];
      }
      conns := conns[member := rows];
      if deltaUp > 0 || deltaDown > 0 || isNew {
        AddDaily(DayKey(owner.user, owner.device, domain, e.observed / DAY_NS), deltaUp, deltaDown, if isNew then 1 else 0, e.observed);
      }
      if logIt && (isNew || deltaUp > 0 || deltaDown > 0 || (e.closed > 0 && oldClosed == 0)) {
        log := log + [e.(domain := domain, sequence := next)];
        next := next + 1;
      }
      return true;
    }

    /** Takes a batch of the machine's own samples; a bad sample refuses the whole batch. */
    method Ingest(member: Member, control: Control, samples: seq<Sample>, now: Time) returns (r: Option<StoreError>)
      modifies this`conns, this`daily, this`log, this`next
      ensures r.None? <==> TakeAll(control, old(LedgerOf(member)), samples, now).Ok?
      ensures r.None? ==> LedgerOf(member) == TakeAll(control, old(LedgerOf(member)), samples, now).value
      ensures r.Some? ==> conns == old(conns) && LedgerOf(member) == old(LedgerOf(member))
      ensures forall m :: m != member ==> (m in conns <==> m in old(conns)) && (m in conns ==> conns[m] == old(conns)[m])
      ensures Balanced(old(conns), old(daily)) ==> Balanced(conns, daily)
    {
      hide Post;
      hide Rejected;
      hide Logged;
      hide Balanced;
      hide TakeAll;
      ghost var l := LedgerOf(member);
      var before := (conns, daily, log, next);
      TakeNothing(control, l, now);
      assert samples[..|samples|] == samples;
      for i := 0 to |samples|
        invariant TakeAll(control, l, samples[..i], now) == Ok(LedgerOf(member))
        invariant member in old(conns) ==> member in conns
        invariant forall m :: m != member ==> (m in conns <==> m in old(conns)) && (m in conns ==> conns[m] == old(conns)[m])
      {
        var s := samples[i];
        TakeNext(control, l, samples, now, i);
        var e := s.event;
        if |e.id| == 0 || |e.id| > 160 || e.up < 0 || e.down < 0 || e.started <= 0 || e.started > now + SKEW || e.abandoned {
          TakeStops(control, l, samples, now, i + 1, |samples|);
          conns, daily, log, next := before.0, before.1, before.2, before.3;
          return Some(InvalidSample);
        }
        if e.closed != 0 && e.closed < now - RETENTION {
          continue;
        }
        if !e.validDomain {
          continue;
        }
        if s.auth !in control.logins || control.logins[s.auth] !in control.owners {
          continue;
        }
        var identity := control.logins[s.auth];
        var ok := Upsert(member, control.owners[identity], e.(identity := identity, observed := now), true);
        if !ok {
          TakeStops(control, l, samples, now, i + 1, |samples|);
          conns, daily, log, next := before.0, before.1, before.2, before.3;
          return Some(OwnerChanged);
        }
      }
      BalanceAfterSampling(old(conns), conns, daily, member, control, l, samples, now);
      return None;
    }

    /** Merges one page of a member's log. A refused page changes nothing. */
    method MergeRemote(member: Member, page: Page, lookups: map<Identity, Lookup>, now: Time) returns (r: Result<nat, StoreError>)
      modifies this
      ensures log == old(log) && next == old(next)
      ensures r.Err? ==> conns == old(conns) && daily == old(daily) && cursors == old(cursors)
      ensures var from := CursorFor(old(CursorOf(member)), page);
              var all := AbsorbTo(lookups, now, old(BookOf(member)), from, page, |page.events|);
              && (r.Ok? <==> |page.events| <= 250 && page.next <= page.head && 0 < |page.epoch| <= 64 && all.Ok?)
              && (r.Ok? ==>
                    && BookOf(member) == all.value.0
                    && CursorOf(member) == Some(Cursor(page.epoch, r.value))
                    && r.value == if all.value.1 < page.next then page.next else all.value.1)
      ensures forall m :: m != member ==> (m in conns <==> m in old(conns)) && (m in conns ==> conns[m] == old(conns)[m])
      ensures Balanced(old(conns), old(daily)) ==> Balanced(conns, daily)
    {
      hide Post;
      hide Rejected;
      hide Balanced;
      hide AbsorbTo;
      AbsorbNothing(lookups, now, BookOf(member), CursorFor(CursorOf(member), page), page);
      if |page.events| > PAGE_LIMIT || page.head < page.next || |page.epoch| == 0 || |page.epoch| > 64 {
        return Err(InvalidPage);
      }
      var before := (conns, daily);
      var cursor, priorEpoch := 0, "";
      if member in cursors {
        cursor, priorEpoch := cursors[member].sequence, cursors[member].epoch;
      }
      if (priorEpoch != "" && priorEpoch != page.epoch) || page.head < cursor {
        cursor := 0;
      }
      var last := cursor;
      ghost var book := BookOf(member);
      for i := 0 to |page.events|
        invariant AbsorbTo(lookups, now, book, cursor, page, i) == Ok((BookOf(member), last))
        invariant cursors == old(cursors) && log == old(log) && next == old(next)
        invariant member in old(conns) ==> member in conns
        invariant forall m :: m != member ==> (m in conns <==> m in old(conns)) && (m in conns ==> conns[m] == old(conns)[m])
      {
        var e := page.events[i];
        AbsorbNext(lookups, now, book, cursor, page, i);
        if e.sequence <= cursor {
          continue;
        }
        if e.sequence <= last || e.sequence > page.next {
          AbsorbStops(lookups, now, book, cursor, page, i + 1, |page.events|);
          conns, daily := before.0, before.1;
          return Err(InvalidPage);
        }
        last := e.sequence;
        if e.observed <= 0 || e.observed > now + SKEW {
          AbsorbStops(lookups, now, book, cursor, page, i + 1, |page.events|);
          conns, daily := before.0, before.1;
          return Err(InvalidTime);
        }
        if e.closed > 0 && e.closed < now - RETENTION {
          continue;
        }
        if e.identity !in lookups {
          continue;
        }
        if lookups[e.identity].ForeignRoute? {
          AbsorbStops(lookups, now, book, cursor, page, i + 1, |page.events|);
          conns, daily := before.0, before.1;
          return Err(WrongRoute);
        }
        var ok := Upsert(member, lookups[e.identity].owner, e, false);
        if !ok {
          AbsorbStops(lookups, now, book, cursor, page, i + 1, |page.events|);
          conns, daily := before.0, before.1;
          return Err(OwnerChanged);
        }
      }
      if last < page.next {
        last := page.next;
      }
      cursors := cursors[member := Cursor(page.epoch, last)];
      BalanceAfterMerge(old(conns), old(daily), conns, daily, member, lookups, now, cursor, page);
      return Ok(last);
    }
  }

  lemma AbsorbNothing(lookups: map<Identity, Lookup>, now: Time, b: Book, cursor: nat, page: Page)
    ensures AbsorbTo(lookups, now, b, cursor, page, 0) == Ok((b, cursor))
  {
  }

  lemma AbsorbNext(lookups: map<Identity, Lookup>, now: Time, b: Book, cursor: nat, page: Page, i: nat)
    requires i < |page.events| && AbsorbTo(lookups, now, b, cursor, page, i).Ok?
    ensures var before, e := AbsorbTo(lookups, now, b, cursor, page, i).value, page.events[i];
            var after := AbsorbTo(lookups, now, b, cursor, page, i + 1);
            if e.sequence <= cursor then after == Ok(before)
            else if e.sequence <= before.1 || e.sequence > page.next then after.Err?
            else
              && (after.Ok? <==> Absorb(lookups, now, before.0, e).Ok?)
              && (after.Ok? ==> after.value == (Absorb(lookups, now, before.0, e).value, e.sequence))
  {
  }

  lemma TakeNothing(control: Control, l: Ledger, now: Time)
    ensures TakeAll(control, l, [], now) == Ok(l)
  {
  }

  lemma TakeNext(control: Control, l: Ledger, samples: seq<Sample>, now: Time, i: nat)
    requires i < |samples|
    ensures var before := TakeAll(control, l, samples[..i], now);
            TakeAll(control, l, samples[..i + 1], now) == if before.Ok? then Take(control, before.value, samples[i], now) else before
  {
    assert samples[..i + 1][..i] == samples[..i];
  }

  /** A refused sample refuses the batch. */
  lemma {:induction false} TakeStops(control: Control, l: Ledger, samples: seq<Sample>, now: Time, i: nat, n: nat)
    requires i <= n <= |samples| && TakeAll(control, l, samples[..i], now).Err?
    ensures TakeAll(control, l, samples[..n], now).Err?
    decreases n
  {
    if i < n {
      TakeStops(control, l, samples, now, i, n - 1);
      TakeNext(control, l, samples, now, n - 1);
    }
  }

  /** A refused event refuses the page. */
  lemma {:induction false} AbsorbStops(lookups: map<Identity, Lookup>, now: Time, b: Book, cursor: nat, page: Page, i: nat, n: nat)
    requires i <= n <= |page.events| && AbsorbTo(lookups, now, b, cursor, page, i).Err?
    ensures AbsorbTo(lookups, now, b, cursor, page, n).Err?
  {
    if i < n {
      AbsorbStops(lookups, now, b, cursor, page, i, n - 1);
    }
  }

  // ------------------------------------------------------------------------------------------
  // The replica catches up
  // ------------------------------------------------------------------------------------------

  /** The master knows every identity of the log, on this member's routes, and nothing in it is out of time. */
  predicate Resolved(owners: map<Identity, Owner>, lookups: map<Identity, Lookup>, log: seq<Event>, now: Time) {
    forall i :: 0 <= i < |log| ==>
      && log[i].identity in owners && log[i].identity in lookups
      && lookups[log[i].identity] == Found(owners[log[i].identity])
      && 0 < log[i].observed <= now + SKEW && !Expired(log[i], now)
  }

  /** Taking entry `at` again, or as the next one, from tables that have replayed the first `n` entries. */
  lemma AbsorbOne(owners: map<Identity, Owner>, lookups: map<Identity, Lookup>, rest: Daily, log: seq<Event>, now: Time, n: nat, at: nat)
    requires Accepted(owners, log) && Resolved(owners, lookups, log, now) && at <= n <= |log| && at < |log|
    ensures Absorb(lookups, now, Beside(rest, Replay(owners, log[..n])), log[at])
         == Ok(Beside(rest, Replay(owners, log[..if at < n then n else n + 1])))
  {
    hide Replay;
    hide Accepted;
    hide Beside;
    hide Post;
    hide Rejected;
    hide Expired;
    PostBeside(rest, Replay(owners, log[..n]), owners[log[at].identity], log[at]);
    if at < n {
      RepostIsIdle(owners, log, n, at);
    } else {
      AcceptedPrefix(owners, log, at);
    }
  }

  /** Taking entries `start` up to `start + i` from tables that have replayed the first `h`. */
  lemma {:induction false} AbsorbReplays(owners: map<Identity, Owner>, lookups: map<Identity, Lookup>, rest: Daily,
                                         log: seq<Event>, next: nat, now: Time, h: nat, cursor: nat, page: Page, start: nat, i: nat)
    requires Accepted(owners, log) && Ordered(log, next) && Resolved(owners, lookups, log, now)
    requires h <= |log| && start + |page.events| <= |log| && page.events == log[start..start + |page.events|]
    requires forall k :: 0 <= k < |page.events| ==> page.events[k].sequence <= page.next
    requires start <= Position(log, cursor) <= h && i <= |page.events|
    ensures AbsorbTo(lookups, now, Beside(rest, Replay(owners, log[..h])), cursor, page, i)
         == Ok((Beside(rest, Replay(owners, log[..if start + i > h then start + i else h])),
                if start + i > Position(log, cursor) then log[start + i - 1].sequence else cursor))
  {
    hide Replay;
    hide Accepted;
    hide Beside;
    hide Absorb;
    hide Resolved;
    hide Position;
    PositionSplits(log, next, cursor);
    if i > 0 {
      AbsorbReplays(owners, lookups, rest, log, next, now, h, cursor, page, start, i - 1);
      var at := start + i - 1;
      assert page.events[i - 1] == log[at];
      AbsorbOne(owners, lookups, rest, log, now, if at > h then at else h, at);
    }
  }

  /**
   A member's rows on the master are the first `h` entries of its log, next to whatever the other
   members added to the daily table, and the stored cursor has not passed an entry that is missing,
   unless it is one that the next merge discards because of its epoch or because it is ahead of the log.
   */
  predicate InStep(owners: map<Identity, Owner>, log: seq<Event>, epoch: string, stored: Option<Cursor>, rest: Daily, b: Book, h: nat) {
    && h <= |log| && b == Beside(rest, Replay(owners, log[..h]))
    && (stored.Some? && (stored.value.epoch == "" || stored.value.epoch == epoch) && stored.value.sequence <= Head(log) ==>
      Position(log, stored.value.sequence) <= h)
  }

  /** The stored cursor, if it is of this log, is not ahead of it; every merge leaves such a cursor. */
  predicate Anchored(log: seq<Event>, epoch: string, stored: Option<Cursor>) {
    stored.Some? && (stored.value.epoch == "" || stored.value.epoch == epoch) ==> stored.value.sequence <= Head(log)
  }

  lemma {:induction false} PositionIs(log: seq<Event>, next: nat, cursor: nat, n: nat)
    requires Ordered(log, next) && n <= |log|
    requires forall i :: 0 <= i < n ==> log[i].sequence <= cursor
    requires forall i :: n <= i < |log| ==> log[i].sequence > cursor
    ensures Position(log, cursor) == n
    decreases |log|
  {
    if n < |log| {
      PositionIs(log[..|log| - 1], next, cursor, n);
    }
  }

  /** A page is a stretch of the log behind the cursor it was asked for, and names its own last entry. */
  lemma ReadPageStretch(log: seq<Event>, next: nat, after: nat, epoch: string)
    requires Ordered(log, next) && 0 < |epoch| <= 64
    ensures var page := ReadPage(log, after, epoch);
            var start := Position(log, if after > Head(log) then 0 else after);
            var stop := start + |page.events|;
            && PageFits(page) && page.head == Head(log) && page.epoch == epoch
            && stop <= |log| && page.events == log[start..stop]
            && (|page.events| == PAGE_LIMIT || stop == |log|)
            && (forall i :: 0 <= i < |page.events| ==> page.events[i].sequence <= page.next)
            && (forall i :: 0 <= i < stop ==> log[i].sequence <= page.next)
            && (forall i :: stop <= i < |log| ==> log[i].sequence > page.next)
            && Position(log, page.next) == stop
  {
    hide Position;
    var from := if after > Head(log) then 0 else after;
    PositionSplits(log, next, from);
    var page := ReadPage(log, after, epoch);
    PositionIs(log, next, page.next, Position(log, from) + |page.events|);
  }

  /** A number below the first entry the log still holds. */
  predicate Dropped(log: seq<Event>, n: nat) {
    log != [] && n < log[0].sequence
  }

  /** A page without a gap misses nothing: the cursor is of this log, and all it has dropped the cursor had passed. */
  lemma NoGapMissesNothing(log: seq<Event>, after: nat, epoch: string)
    ensures !ReadPage(log, after, epoch).gap <==> after <= Head(log) && forall n: nat :: Dropped(log, n) ==> n <= after
  {
    if log != [] && after <= Head(log) {
      assert Dropped(log, after + 1) <==> log[0].sequence > after + 1;
    }
  }

  /**
   An event of a page that the cursor has passed counts for nothing. Any other is refused out of order,
   beyond the end of the page, out of time, on the route of another member or under another owner;
   it is passed over when its connection was closed more than 30 days ago or its node is unknown.
   */
  lemma EventOfPage(lookups: map<Identity, Lookup>, now: Time, b: Book, cursor: nat, page: Page, i: nat)
    requires i < |page.events| && AbsorbTo(lookups, now, b, cursor, page, i).Ok?
    ensures var e := page.events[i];
            var before, last := AbsorbTo(lookups, now, b, cursor, page, i).value.0, AbsorbTo(lookups, now, b, cursor, page, i).value.1;
            var after := AbsorbTo(lookups, now, b, cursor, page, i + 1);
            var counted := !(0 < e.closed < now - 30 * DAY_NS) && e.identity in lookups;
            && (e.sequence <= cursor ==> after == Ok((before, last)))
            && (e.sequence > cursor ==>
                  && (after.Ok? <==>
                        && last < e.sequence <= page.next && 0 < e.observed <= now + 300_000_000_000
                        && (counted ==> lookups[e.identity].Found? && !Rejected(before, lookups[e.identity].owner, e)))
                  && (after.Ok? ==> after.value.1 == e.sequence
                                    && after.value.0 == if counted then Post(before, lookups[e.identity].owner, e) else before))
  {
    hide Post;
    hide Rejected;
  }

  /** The cursor a merge stores after taking a page up to `last`. */
  function NewCursor(page: Page, last: nat): Cursor {
    Cursor(page.epoch, if last < page.next then page.next else last)
  }

  lemma PositionMonotone(log: seq<Event>, next: nat, a: nat, b: nat)
    requires Ordered(log, next) && a <= b
    ensures Position(log, a) <= Position(log, b)
  {
    PositionSplits(log, next, a);
    PositionSplits(log, next, b);
  }

  /**
   Merging a page that was read from the stored cursor, from an earlier one or from the beginning
   replays the entries the master lacks, changes nothing else, and never passes a missing entry. So
   does a merge that discards the stored cursor and takes the log from its beginning again.
   */
  lemma MergeKeepsStep(owners: map<Identity, Owner>, lookups: map<Identity, Lookup>, log: seq<Event>, next: nat, now: Time,
                       epoch: string, stored: Option<Cursor>, rest: Daily, b: Book, h: nat, after: nat)
    requires Accepted(owners, log) && Ordered(log, next) && Resolved(owners, lookups, log, now)
    requires InStep(owners, log, epoch, stored, rest, b, h) && 0 < |epoch| <= 64
    requires after > Head(log) || after <= CursorFor(stored, ReadPage(log, after, epoch))
    ensures var page := ReadPage(log, after, epoch);
            var stop := Position(log, page.next);
            var all := AbsorbTo(lookups, now, b, CursorFor(stored, page), page, |page.events|);
            && PageFits(page) && all.Ok?
            && InStep(owners, log, epoch, Some(NewCursor(page, all.value.1)), rest, all.value.0, if stop > h then stop else h)
            && Anchored(log, epoch, Some(NewCursor(page, all.value.1)))
            && Position(log, NewCursor(page, all.value.1).sequence) == Max(stop, Position(log, CursorFor(stored, page)))
            && (stop == |log| || stop == Position(log, if after > Head(log) then 0 else after) + PAGE_LIMIT)
  {
    hide Replay;
    hide Accepted;
    hide Beside;
    hide Absorb;
    hide AbsorbTo;
    hide Resolved;
    hide Position;
    hide ReadPage;
    hide Ordered;
    var page := ReadPage(log, after, epoch);
    ReadPageStretch(log, next, after, epoch);
    var cursor := CursorFor(stored, page);
    var from := if after > Head(log) then 0 else after;
    var start := Position(log, from);
    PositionMonotone(log, next, from, cursor);
    ZeroPosition(log, next);
    AbsorbReplays(owners, lookups, rest, log, next, now, h, cursor, page, start, |page.events|);
    HeadBound(log, next);
    PositionSplits(log, next, cursor);
    var stop := Position(log, page.next);
    var all := AbsorbTo(lookups, now, b, cursor, page, |page.events|).value;
    assert all.0 == Beside(rest, Replay(owners, log[..if stop > h then stop else h]));
    assert NewCursor(page, all.1).sequence == Max(page.next, cursor);
    if page.next <= cursor {
      PositionMonotone(log, next, page.next, cursor);
    } else {
      PositionMonotone(log, next, cursor, page.next);
    }
  }

  lemma ZeroPosition(log: seq<Event>, next: nat)
    requires Ordered(log, next)
    ensures Position(log, 0) == 0
  {
    PositionSplits(log, next, 0);
  }

  lemma HeadBound(log: seq<Event>, next: nat)
    requires Ordered(log, next)
    ensures forall i :: 0 <= i < |log| ==> log[i].sequence <= Head(log)
  {
  }

  /** The machine may keep logging between two merges. */
  lemma GrowthKeepsStep(owners: map<Identity, Owner>, log: seq<Event>, more: seq<Event>, next: nat, epoch: string,
                        stored: Option<Cursor>, rest: Daily, b: Book, h: nat)
    requires Ordered(log + more, next) && InStep(owners, log, epoch, stored, rest, b, h) && Anchored(log, epoch, stored)
    ensures InStep(owners, log + more, epoch, stored, rest, b, h) && Anchored(log + more, epoch, stored)
  {
    hide Replay;
    hide Beside;
    hide Position;
    assert (log + more)[..h] == log[..h];
    if stored.Some? && stored.value.sequence <= Head(log) {
      GrowthKeepsPosition(log, more, next, stored.value.sequence);
    }
  }

  lemma GrowthKeepsPosition(log: seq<Event>, more: seq<Event>, next: nat, cursor: nat)
    requires Ordered(log + more, next) && cursor <= Head(log)
    ensures cursor <= Head(log + more)
    ensures Position(log + more, cursor) == Position(log, cursor)
    decreases |more|
  {
    if more == [] {
      assert log + more == log;
    } else {
      var all, fewer := log + more, more[..|more| - 1];
      assert all[..|all| - 1] == log + fewer;
      GrowthKeepsPosition(log, fewer, next, cursor);
      assert log != [] ==> all[|log| - 1] == log[|log| - 1];
    }
  }

  /**
   Once the cursor has passed the whole log, the master holds the machine's own totals: the same
   connections with the same bytes, and exactly the machine's daily rows next to the other members'.
   */
  lemma CaughtUp(owners: map<Identity, Owner>, l: Ledger, epoch: string, stored: Option<Cursor>, rest: Daily, b: Book, h: nat)
    requires Faithful(owners, l) && InStep(owners, l.log, epoch, stored, rest, b, h)
    requires h == |l.log|
    ensures b.daily == Plus(rest, l.book.daily)
    ensures SameBytes(Book(b.conns, l.book.daily), l.book)
  {
    assert l.log[..h] == l.log;
  }

  // ------------------------------------------------------------------------------------------
  // Days and connections agree, on both sides
  // ------------------------------------------------------------------------------------------

  /** Every subject's daily rows add up to its connections. */
  ghost predicate Conserved(b: Book) {
    forall s: Subject, m: Measure :: DailyTotal(b.daily, s, m) == ConnTotal(b.conns, s, m)
  }

  lemma PostKeepsConserved(b: Book, owner: Owner, e: Event)
    requires Conserved(b) && !Rejected(b, owner, e)
    ensures Conserved(Post(b, owner, e))
  {
    hide Post;
    hide DailyTotal;
    hide ConnTotal;
    forall s: Subject, m: Measure
      ensures DailyTotal(Post(b, owner, e).daily, s, m) == ConnTotal(Post(b, owner, e).conns, s, m)
    {
      PostConserves(b, owner, e, s, m);
    }
  }

  /** On the machine, from empty tables and over every batch of samples. */
  lemma {:induction false} SamplingConserves(control: Control, l: Ledger, samples: seq<Sample>, now: Time)
    requires Conserved(l.book) && TakeAll(control, l, samples, now).Ok?
    ensures Conserved(TakeAll(control, l, samples, now).value.book)
    decreases |samples|
  {
    hide Conserved;
    hide Post;
    hide Rejected;
    if samples != [] {
      SamplingConserves(control, l, samples[..|samples| - 1], now);
      var l', s := TakeAll(control, l, samples[..|samples| - 1], now).value, samples[|samples| - 1];
      if ValidSample(s, now) && !Ignored(control, s, now) {
        var e := EventFor(control, s, now);
        PostKeepsConserved(l'.book, control.owners[e.identity], e);
      }
    }
  }

  /** The connections of every member on the master. */
  ghost function MembersTotal(conns: map<Member, map<Stream, Conn>>, s: Subject, m: Measure): int {
    MapSum.Sum(map member | member in conns :: ConnTotal(conns[member], s, m))
  }

  /** The master's one daily table adds up to the connections of all members. */
  ghost predicate Balanced(conns: map<Member, map<Stream, Conn>>, daily: Daily) {
    forall s: Subject, m: Measure :: DailyTotal(daily, s, m) == MembersTotal(conns, s, m)
  }

  lemma {:induction false} AbsorbMovesEqually(lookups: map<Identity, Lookup>, now: Time, b: Book, cursor: nat, page: Page, i: nat, s: Subject, m: Measure)
    requires i <= |page.events| && AbsorbTo(lookups, now, b, cursor, page, i).Ok?
    ensures var b' := AbsorbTo(lookups, now, b, cursor, page, i).value.0;
            DailyTotal(b'.daily, s, m) - DailyTotal(b.daily, s, m) == ConnTotal(b'.conns, s, m) - ConnTotal(b.conns, s, m)
  {
    hide DailyTotal;
    hide ConnTotal;
    hide Post;
    hide Rejected;
    hide Expired;
    if i > 0 {
      AbsorbMovesEqually(lookups, now, b, cursor, page, i - 1, s, m);
      var before, e := AbsorbTo(lookups, now, b, cursor, page, i - 1).value, page.events[i - 1];
      if e.sequence > cursor && !Expired(e, now) && e.identity in lookups {
        PostConserves(before.0, lookups[e.identity].owner, e, s, m);
      }
    }
  }

  lemma {:induction false} TakeMovesEqually(control: Control, l: Ledger, samples: seq<Sample>, now: Time, s: Subject, m: Measure)
    requires TakeAll(control, l, samples, now).Ok?
    ensures var b, b' := l.book, TakeAll(control, l, samples, now).value.book;
            DailyTotal(b'.daily, s, m) - DailyTotal(b.daily, s, m) == ConnTotal(b'.conns, s, m) - ConnTotal(b.conns, s, m)
    decreases |samples|
  {
    hide DailyTotal;
    hide ConnTotal;
    hide Post;
    hide Rejected;
    if samples != [] {
      TakeMovesEqually(control, l, samples[..|samples| - 1], now, s, m);
      var l', x := TakeAll(control, l, samples[..|samples| - 1], now).value, samples[|samples| - 1];
      if ValidSample(x, now) && !Ignored(control, x, now) {
        var e := EventFor(control, x, now);
        PostConserves(l'.book, control.owners[e.identity], e, s, m);
      }
    }
  }

  /** One member's rows and the common days have moved by the same amounts. */
  ghost predicate MovedEqually(b: Book, b': Book) {
    forall s: Subject, m: Measure ::
      DailyTotal(b'.daily, s, m) - DailyTotal(b.daily, s, m) == ConnTotal(b'.conns, s, m) - ConnTotal(b.conns, s, m)
  }

  lemma MovedKeepsBalance(conns: map<Member, map<Stream, Conn>>, daily: Daily, member: Member, b: Book)
    requires Balanced(conns, daily)
    requires MovedEqually(Book(if member in conns then conns[member] else map[], daily), b)
    ensures Balanced(conns[member := b.conns], b.daily)
  {
    hide DailyTotal;
    hide ConnTotal;
    forall s: Subject, m: Measure
      ensures DailyTotal(b.daily, s, m) == MembersTotal(conns[member := b.conns], s, m)
    {
      var totals := map x | x in conns :: ConnTotal(conns[x], s, m);
      MapSum.SumUpdate(totals, member, ConnTotal(b.conns, s, m));
      var conns' := conns[member := b.conns];
      assert (map x | x in conns' :: ConnTotal(conns'[x], s, m)) == totals[member := ConnTotal(b.conns, s, m)];
      NoConnections(s, m);
    }
  }

  /** Merging a page keeps the master's daily table in balance with the connections of all members. */
  lemma MergeKeepsBalance(conns: map<Member, map<Stream, Conn>>, daily: Daily, member: Member, lookups: map<Identity, Lookup>,
                          now: Time, cursor: nat, page: Page)
    requires Balanced(conns, daily)
    requires AbsorbTo(lookups, now, Book(if member in conns then conns[member] else map[], daily), cursor, page, |page.events|).Ok?
    ensures var b := AbsorbTo(lookups, now, Book(if member in conns then conns[member] else map[], daily), cursor, page, |page.events|).value.0;
            Balanced(conns[member := b.conns], b.daily)
  {
    hide AbsorbTo;
    hide DailyTotal;
    hide ConnTotal;
    hide Balanced;
    var book := Book(if member in conns then conns[member] else map[], daily);
    var b := AbsorbTo(lookups, now, book, cursor, page, |page.events|).value.0;
    forall s: Subject, m: Measure
      ensures DailyTotal(b.daily, s, m) - DailyTotal(book.daily, s, m) == ConnTotal(b.conns, s, m) - ConnTotal(book.conns, s, m)
    {
      AbsorbMovesEqually(lookups, now, book, cursor, page, |page.events|, s, m);
    }
    MovedKeepsBalance(conns, daily, member, b);
  }

  /** So does taking a batch of the master's own samples, whatever the other members hold. */
  lemma SamplingKeepsBalance(conns: map<Member, map<Stream, Conn>>, member: Member, control: Control, l: Ledger, samples: seq<Sample>, now: Time)
    requires Balanced(conns, l.book.daily) && l.book.conns == (if member in conns then conns[member] else map[])
    requires TakeAll(control, l, samples, now).Ok?
    ensures var b := TakeAll(control, l, samples, now).value.book;
            Balanced(conns[member := b.conns], b.daily)
  {
    hide TakeAll;
    hide DailyTotal;
    hide ConnTotal;
    hide Balanced;
    var b := TakeAll(control, l, samples, now).value.book;
    forall s: Subject, m: Measure
      ensures DailyTotal(b.daily, s, m) - DailyTotal(l.book.daily, s, m) == ConnTotal(b.conns, s, m) - ConnTotal(l.book.conns, s, m)
    {
      TakeMovesEqually(control, l, samples, now, s, m);
    }
    MovedKeepsBalance(conns, l.book.daily, member, b);
  }

  lemma EmptyMember(conns: map<Member, map<Stream, Conn>>, daily: Daily, member: Member)
    requires member !in conns && Balanced(conns[member := map[]], daily)
    ensures Balanced(conns, daily)
  {
    hide DailyTotal;
    hide ConnTotal;
    forall s: Subject, m: Measure
      ensures DailyTotal(daily, s, m) == MembersTotal(conns, s, m)
    {
      var totals := map x | x in conns :: ConnTotal(conns[x], s, m);
      var conns' := conns[member := map[]];
      MapSum.SumUpdate(totals, member, 0);
      NoConnections(s, m);
      assert (map x | x in conns' :: ConnTotal(conns'[x], s, m)) == totals[member := 0];
    }
  }

  /** A member without rows and a member that is not listed are the same. */
  lemma BalanceOfChange(conns: map<Member, map<Stream, Conn>>, conns': map<Member, map<Stream, Conn>>, daily': Daily, member: Member)
    requires Balanced(conns[member := if member in conns' then conns'[member] else map[]], daily')
    requires forall m :: m != member ==> (m in conns' <==> m in conns) && (m in conns' ==> conns'[m] == conns[m])
    requires member in conns ==> member in conns'
    ensures Balanced(conns', daily')
  {
    hide Balanced;
    if member in conns' {
      assert conns[member := conns'[member]] == conns';
    } else {
      assert conns == conns';
      EmptyMember(conns, daily', member);
    }
  }

  lemma BalanceAfterMerge(conns: map<Member, map<Stream, Conn>>, daily: Daily, conns': map<Member, map<Stream, Conn>>, daily': Daily,
                          member: Member, lookups: map<Identity, Lookup>, now: Time, cursor: nat, page: Page)
    requires AbsorbTo(lookups, now, Book(if member in conns then conns[member] else map[], daily), cursor, page, |page.events|).Ok?
    requires AbsorbTo(lookups, now, Book(if member in conns then conns[member] else map[], daily), cursor, page, |page.events|).value.0
          == Book(if member in conns' then conns'[member] else map[], daily')
    requires forall m :: m != member ==> (m in conns' <==> m in conns) && (m in conns' ==> conns'[m] == conns[m])
    requires member in conns ==> member in conns'
    ensures Balanced(conns, daily) ==> Balanced(conns', daily')
  {
    hide AbsorbTo;
    hide Balanced;
    if Balanced(conns, daily) {
      MergeKeepsBalance(conns, daily, member, lookups, now, cursor, page);
      BalanceOfChange(conns, conns', daily', member);
    }
  }

  lemma BalanceAfterSampling(conns: map<Member, map<Stream, Conn>>, conns': map<Member, map<Stream, Conn>>, daily': Daily,
                             member: Member, control: Control, l: Ledger, samples: seq<Sample>, now: Time)
    requires l.book.conns == (if member in conns then conns[member] else map[])
    requires TakeAll(control, l, samples, now).Ok?
    requires TakeAll(control, l, samples, now).value.book == Book(if member in conns' then conns'[member] else map[], daily')
    requires forall m :: m != member ==> (m in conns' <==> m in conns) && (m in conns' ==> conns'[m] == conns[m])
    requires member in conns ==> member in conns'
    ensures Balanced(conns, l.book.daily) ==> Balanced(conns', daily')
  {
    hide TakeAll;
    hide Balanced;
    if Balanced(conns, l.book.daily) {
      SamplingKeepsBalance(conns, member, control, l, samples, now);
      BalanceOfChange(conns, conns', daily', member);
    }
  }

  lemma NoConnections(s: Subject, m: Measure)
    ensures ConnTotal(map[], s, m) == 0
  {
    assert ConnShares(map[], s, m) == map[];
  }
}
