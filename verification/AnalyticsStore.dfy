/**
 Connection analytics: cumulative readings per connection, a table of daily totals kept beside
 them, and a log of the readings that changed something.

 Days are counted from the epoch in UTC. Owners are the account, device and node a reading belongs
 to; domains are canonical names. The `abandoned` mark of a connection is not part of this model:
 its log entries are kept and change nothing.
 */
module AnalyticsStore {
  import MapSum

  type Stream = string
  type Member = string
  type Identity = string
  type Time = int

  const DAY_NS := 86_400_000_000_000

  datatype Owner = Owner(user: nat, device: nat, node: nat)

  datatype Event = Event(
    sequence: nat, id: Stream, identity: Identity, domain: string, validDomain: bool,
    started: Time, closed: Time, up: int, down: int, observed: Time, abandoned: bool)

  datatype Conn = Conn(owner: Owner, domain: string, started: Time, closed: Time, up: int, down: int, lastSeen: Time)

  datatype DayKey = DayKey(user: nat, device: nat, domain: string, day: int)

  datatype Day = Day(up: int, down: int, connections: int, lastSeen: Time)

  type Daily = map<DayKey, Day>

  /** The rows of one member together with the daily table, which all members share. */
  datatype Book = Book(conns: map<Stream, Conn>, daily: Daily)

  datatype StoreError = InvalidSample | OwnerChanged | InvalidPage | WrongRoute | InvalidTime

  const EMPTY := Book(map[], map[])

  function Max(a: int, b: int): int {
    if a > b then a else b
  }

  // ------------------------------------------------------------------------------------------
  // Posting one reading
  // ------------------------------------------------------------------------------------------

  predicate WellFormed(e: Event) {
    e.up >= 0 && e.down >= 0 && e.started > 0 && e.observed > 0 && 0 < |e.id| <= 160 && e.validDomain
  }

  predicate IsNew(conns: map<Stream, Conn>, e: Event) {
    e.id !in conns
  }

  /** An older reading of a known connection, in either direction. */
  predicate Stale(conns: map<Stream, Conn>, e: Event) {
    e.id in conns && (e.up < conns[e.id].up || e.down < conns[e.id].down)
  }

  function DomainFor(conns: map<Stream, Conn>, e: Event): string {
    if e.id in conns then conns[e.id].domain else e.domain
  }

  function UpBefore(conns: map<Stream, Conn>, e: Event): int {
    if e.id in conns then conns[e.id].up else 0
  }

  function DownBefore(conns: map<Stream, Conn>, e: Event): int {
    if e.id in conns then conns[e.id].down else 0
  }

  function ClosedBefore(conns: map<Stream, Conn>, e: Event): Time {
    if e.id in conns then conns[e.id].closed else 0
  }

  predicate MovesBytes(conns: map<Stream, Conn>, e: Event) {
    IsNew(conns, e) || e.up > UpBefore(conns, e) || e.down > DownBefore(conns, e)
  }

  function PostConn(conns: map<Stream, Conn>, owner: Owner, e: Event): map<Stream, Conn> {
    if e.id in conns then
      var c := conns[e.id];
      conns[e.id := c.(up := e.up, down := e.down, closed := Max(c.closed, e.closed), lastSeen := Max(c.lastSeen, e.observed))]
    else
      conns[e.id := Conn(owner, e.domain, e.started, e.closed, e.up, e.down, e.observed)]
  }

  function DayOf(at: Time): int {
    at / DAY_NS
  }

  function KeyFor(conns: map<Stream, Conn>, owner: Owner, e: Event): DayKey {
    DayKey(owner.user, owner.device, DomainFor(conns, e), DayOf(e.observed))
  }

  /** What the reading adds to its day. */
  function Addition(conns: map<Stream, Conn>, e: Event): Day {
    Day(e.up - UpBefore(conns, e), e.down - DownBefore(conns, e), if IsNew(conns, e) then 1 else 0, e.observed)
  }

  function AddDay(d: Daily, k: DayKey, x: Day): Daily {
    d[k := if k in d then Day(d[k].up + x.up, d[k].down + x.down, d[k].connections + x.connections, Max(d[k].lastSeen, x.lastSeen))
    else x]
  }

  predicate Rejected(b: Book, owner: Owner, e: Event) {
    !WellFormed(e) || (!e.abandoned && e.id in b.conns && b.conns[e.id].owner != owner)
  }

  /** The tables after one reading that is not rejected. */
  function Post(b: Book, owner: Owner, e: Event): Book {
    if e.abandoned || Stale(b.conns, e) then b
    else
      Book(PostConn(b.conns, owner, e),
           if MovesBytes(b.conns, e) then AddDay(b.daily, KeyFor(b.conns, owner, e), Addition(b.conns, e)) else b.daily)
  }

  /** Only readings that changed bytes, opened or closed a connection are logged. */
  predicate Logged(b: Book, e: Event) {
    !e.abandoned && !Stale(b.conns, e)
    && (MovesBytes(b.conns, e) || (e.closed > 0 && ClosedBefore(b.conns, e) == 0))
  }

  // ------------------------------------------------------------------------------------------
  // What one reading is worth
  // ------------------------------------------------------------------------------------------

  /** The row a connection holds after its first reading, or after a later one. */
  ghost predicate Holds(before: map<Stream, Conn>, after: map<Stream, Conn>, owner: Owner, e: Event) {
    && after.Keys == before.Keys + {e.id}
    && (forall id :: id in before && id != e.id ==> after[id] == before[id])
    && after[e.id].owner == owner && after[e.id].up == e.up && after[e.id].down == e.down
    && (e.id !in before ==>
      after[e.id].domain == e.domain && after[e.id].started == e.started && after[e.id].closed == e.closed && after[e.id].lastSeen == e.observed)
    && (e.id in before ==>
      && after[e.id].domain == before[e.id].domain && after[e.id].started == before[e.id].started
      && after[e.id].closed >= e.closed && after[e.id].closed >= before[e.id].closed && after[e.id].closed in {e.closed, before[e.id].closed}
      && after[e.id].lastSeen >= e.observed && after[e.id].lastSeen >= before[e.id].lastSeen && after[e.id].lastSeen in {e.observed, before[e.id].lastSeen})
  }

  /** One day has risen by so much, and begins with it if it is new; every other day is as it was. */
  ghost predicate Rises(before: Daily, after: Daily, k: DayKey, up: int, down: int, count: int, seen: Time) {
    && after.Keys == before.Keys + {k}
    && (forall x :: x in before && x != k ==> after[x] == before[x])
    && (k !in before ==> after[k] == Day(up, down, count, seen))
    && (k in before ==>
      && after[k].up - before[k].up == up && after[k].down - before[k].down == down && after[k].connections - before[k].connections == count
      && after[k].lastSeen >= seen && after[k].lastSeen >= before[k].lastSeen && after[k].lastSeen in {seen, before[k].lastSeen})
  }

  /**
   A reading that is neither refused nor behind the one before becomes the connection's reading, and
   what it is ahead of that one goes to the UTC day it was observed on, for the owner of the
   connection and the domain the connection was opened with. A reading that is ahead of nothing
   moves no day.
   */
  lemma PostBooks(b: Book, owner: Owner, e: Event, day: int)
    requires e.up >= 0 && e.down >= 0 && e.started > 0 && e.observed > 0 && 0 < |e.id| <= 160 && e.validDomain && !e.abandoned
    requires e.id in b.conns ==> b.conns[e.id].owner == owner && b.conns[e.id].up <= e.up && b.conns[e.id].down <= e.down
    requires day * DAY_NS <= e.observed < (day + 1) * DAY_NS
    ensures !Rejected(b, owner, e)
    ensures var b' := Post(b, owner, e);
            var up, down := if e.id in b.conns then b.conns[e.id].up else 0, if e.id in b.conns then b.conns[e.id].down else 0;
            var domain := if e.id in b.conns then b.conns[e.id].domain else e.domain;
            && Holds(b.conns, b'.conns, owner, e)
            && (e.id in b.conns && e.up == up && e.down == down ==> b'.daily == b.daily)
            && (e.id !in b.conns || e.up > up || e.down > down ==>
                  Rises(b.daily, b'.daily, DayKey(owner.user, owner.device, domain, day), e.up - up, e.down - down,
                        if e.id in b.conns then 0 else 1, e.observed))
  {
    assert DayOf(e.observed) == day;
  }

  /** A reading that is behind in either direction changes nothing, and neither does the note that a connection was lost. */
  lemma BehindChangesNothing(b: Book, owner: Owner, e: Event)
    requires e.abandoned || (e.id in b.conns && (e.up < b.conns[e.id].up || e.down < b.conns[e.id].down))
    ensures Post(b, owner, e) == b
  {
  }

  /** Nothing else is refused than a reading out of bounds, and a known connection under another owner. */
  lemma RefusedExactly(b: Book, owner: Owner, e: Event)
    ensures !Rejected(b, owner, e) <==>
            && e.up >= 0 && e.down >= 0 && e.started > 0 && e.observed > 0 && |e.id| > 0 && |e.id| <= 160 && e.validDomain
            && (e.abandoned || e.id !in b.conns || b.conns[e.id].owner == owner)
  {
  }

  // ------------------------------------------------------------------------------------------
  // Conservation
  // ------------------------------------------------------------------------------------------

  datatype Measure = Upload | Download | Connections

  /** The account, device and domain a total is for. */
  datatype Subject = Subject(user: nat, device: nat, domain: string)

  function DayShare(k: DayKey, d: Day, s: Subject, m: Measure): int {
    if Subject(k.user, k.device, k.domain) != s then 0
    else match m case Upload => d.up case Download => d.down case Connections => d.connections
  }

  function ConnShare(c: Conn, s: Subject, m: Measure): int {
    if Subject(c.owner.user, c.owner.device, c.domain) != s then 0
    else match m case Upload => c.up case Download => c.down case Connections => 1
  }

  function DayShares(d: Daily, s: Subject, m: Measure): map<DayKey, int> {
    map k | k in d :: DayShare(k, d[k], s, m)
  }

  function ConnShares(conns: map<Stream, Conn>, s: Subject, m: Measure): map<Stream, int> {
    map id | id in conns :: ConnShare(conns[id], s, m)
  }

  /** All days of a subject. */
  ghost function DailyTotal(d: Daily, s: Subject, m: Measure): int {
    MapSum.Sum(DayShares(d, s, m))
  }

  /** All connections of a subject. */
  ghost function ConnTotal(conns: map<Stream, Conn>, s: Subject, m: Measure): int {
    MapSum.Sum(ConnShares(conns, s, m))
  }

  lemma AddDayTotal(d: Daily, k: DayKey, x: Day, s: Subject, m: Measure)
    ensures DailyTotal(AddDay(d, k, x), s, m) == DailyTotal(d, s, m) + DayShare(k, x, s, m)
  {
    var d' := AddDay(d, k, x);
    assert DayShares(d', s, m) == DayShares(d, s, m)[k := DayShare(k, d'[k], s, m)];
    MapSum.SumUpdate(DayShares(d, s, m), k, DayShare(k, d'[k], s, m));
  }

  lemma PostConnTotal(conns: map<Stream, Conn>, owner: Owner, e: Event, s: Subject, m: Measure)
    ensures ConnTotal(PostConn(conns, owner, e), s, m)
         == ConnTotal(conns, s, m) + ConnShare(PostConn(conns, owner, e)[e.id], s, m)
            - (if e.id in conns then ConnShare(conns[e.id], s, m) else 0)
  {
    var conns' := PostConn(conns, owner, e);
    assert ConnShares(conns', s, m) == ConnShares(conns, s, m)[e.id := ConnShare(conns'[e.id], s, m)];
    MapSum.SumUpdate(ConnShares(conns, s, m), e.id, ConnShare(conns'[e.id], s, m));
  }

  /** A reading moves both totals of every subject by the same amount. */
  lemma PostConserves(b: Book, owner: Owner, e: Event, s: Subject, m: Measure)
    requires !Rejected(b, owner, e)
    ensures var b' := Post(b, owner, e);
            DailyTotal(b'.daily, s, m) - DailyTotal(b.daily, s, m) == ConnTotal(b'.conns, s, m) - ConnTotal(b.conns, s, m)
  {
    if !e.abandoned && !Stale(b.conns, e) {
      hide DailyTotal;
      hide ConnTotal;
      PostConnTotal(b.conns, owner, e, s, m);
      if MovesBytes(b.conns, e) {
        AddDayTotal(b.daily, KeyFor(b.conns, owner, e), Addition(b.conns, e), s, m);
      }
    }
  }
}
