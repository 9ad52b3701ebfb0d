/**
 The history of a machine's periods: per revision a range of past periods, newest first, cut into
 pages of twenty.
 */
module TrafficHistory {
  import opened Wrappers
  import opened Calendar
  import opened TrafficPeriods

  const PAGE_SIZE := 20

  /** The past periods of one revision; none when `last` is before `first`. */
  datatype Segment = Segment(revision: nat, first: int, last: int)

  datatype Entry = Entry(revision: nat, index: int)

  function Count(s: Segment): nat {
    if s.last < s.first then 0 else s.last - s.first + 1
  }

  function Total(segments: seq<Segment>): nat {
    if segments == [] then 0 else Count(segments[0]) + Total(segments[1..])
  }

  /** The periods of a segment, newest first. */
  function Descending(s: Segment): (r: seq<Entry>)
    ensures |r| == Count(s)
    ensures forall i :: 0 <= i < |r| ==> r[i] == Entry(s.revision, s.last - i)
  {
    seq(Count(s), i => Entry(s.revision, s.last - i))
  }

  /** The whole history, newest first. */
  function Listing(segments: seq<Segment>): (r: seq<Entry>)
    ensures |r| == Total(segments)
  {
    if segments == [] then [] else Descending(segments[0]) + Listing(segments[1..])
  }

  // ------------------------------------------------------------------------------------------
  // Which periods are past
  // ------------------------------------------------------------------------------------------

  /** From when on a revision's periods are listed: its anchor, the first sample, its own beginning. */
  function Begin(z: Zone, p: Rule, earliest: Time): Time
    requires Anchored(z, p.begin)
  {
    var a := if earliest > Anchor(z, p) then earliest else Anchor(z, p);
    if p.from > 0 && p.from > a then p.from else a
  }

  function End(p: Rule, now: Time): Time {
    if p.until > 0 && p.until < now then p.until else now
  }

  /** The instant counts for a revision: it is past, and not before the anchor, the first sample or outside the time the revision was in force. */
  predicate Counts(z: Zone, p: Rule, earliest: Time, now: Time, t: Time)
    requires Anchored(z, p.begin)
  {
    t < now && t >= z.start(Ordinal(p.begin)) && t >= earliest && (p.from > 0 ==> t >= p.from) && (p.until > 0 ==> t < p.until)
  }

  /** Those instants are a stretch of time. */
  lemma CountsBetween(z: Zone, p: Rule, earliest: Time, now: Time)
    requires Anchored(z, p.begin)
    ensures forall t :: Counts(z, p, earliest, now, t) <==> Begin(z, p, earliest) <= t < End(p, now)
  {
  }

  /** Some instant between the two lies in the period. */
  ghost predicate Touches(z: Zone, p: Rule, from: Time, to: Time, i: int) {
    exists t: Time :: from <= t < to && In(z, p, t, i)
  }

  /**
   A past period of a revision: it reaches into the time the revision was in force and samples
   exist for, and it is not the current period of the rule in force.
   */
  ghost predicate Past(z: Zone, p: Rule, earliest: Time, now: Time, i: int)
    requires Anchored(z, p.begin)
  {
    (exists t: Time :: Counts(z, p, earliest, now, t) && In(z, p, t, i)) && !(p.until == 0 && In(z, p, now, i))
  }

  lemma PastTouches(z: Zone, p: Rule, earliest: Time, now: Time, i: int)
    requires Anchored(z, p.begin)
    ensures Past(z, p, earliest, now, i) <==> Touches(z, p, Begin(z, p, earliest), End(p, now), i) && !(p.until == 0 && In(z, p, now, i))
  {
    hide In;
    hide Begin;
    hide End;
    hide Anchored;
    CountsBetween(z, p, earliest, now);
    hide Counts;
  }

  lemma {:induction false} NotLater(z: Zone, p: Rule, i: int, j: int)
    requires Proper(z) && i <= j && Boundary(z, p, i).Some? && Boundary(z, p, j).Some?
    ensures Boundary(z, p, i).value <= Boundary(z, p, j).value
  {
    if i < j {
      BoundariesIncrease(z, p, i, j);
    }
  }

  /** Between the periods of its ends a stretch of time touches every period and no other. */
  lemma TouchesBetween(z: Zone, p: Rule, from: Time, to: Time, first: int, last: int, i: int)
    requires Proper(z) && from < to && In(z, p, from, first) && In(z, p, to - 1, last)
    ensures Touches(z, p, from, to, i) <==> first <= i <= last
  {
    hide Boundary;
    hide Proper;
    if first <= i <= last {
      EarlierComputable(z, p, i + 1, last + 1);
      EarlierComputable(z, p, i, last + 1);
      NotLater(z, p, first + 1, i + 1);
      NotLater(z, p, i, last);
      BoundariesIncrease(z, p, i, i + 1);
      var start := Boundary(z, p, i).value;
      var t := if start > from then start else from;
      assert In(z, p, t, i);
    }
    if Touches(z, p, from, to, i) {
      var t :| from <= t < to && In(z, p, t, i);
      if i < first {
        NotLater(z, p, i + 1, first);
      } else if last < i {
        NotLater(z, p, last + 1, i);
      }
    }
  }

  /** The current period is not before the last past one. */
  lemma CurrentIsLast(z: Zone, p: Rule, at: Time, now: Time, last: int, current: int)
    requires Proper(z) && at < now && In(z, p, at, last) && In(z, p, now, current)
    ensures last <= current
  {
    hide Boundary;
    hide Proper;
    if current < last {
      NotLater(z, p, current + 1, last);
    }
  }

  /** Some period whose two boundaries can be computed contains the instant. */
  ghost predicate InSome(z: Zone, p: Rule, at: Time) {
    exists i :: In(z, p, at, i)
  }

  /** The first or the last of the instants that count. */
  ghost predicate Extreme(z: Zone, p: Rule, earliest: Time, now: Time, t: Time)
    requires Anchored(z, p.begin)
  {
    && Counts(z, p, earliest, now, t)
    && ((forall u :: Counts(z, p, earliest, now, u) ==> t <= u) || (forall u :: Counts(z, p, earliest, now, u) ==> u <= t))
  }

  /** The rule has an anchor, and the first and the last instant that count lie in periods; so does the current one, if any count. */
  ghost predicate Listable(z: Zone, p: Rule, earliest: Time, now: Time) {
    && Anchored(z, p.begin)
    && (forall t: Time :: Extreme(z, p, earliest, now, t) ==> InSome(z, p, t))
    && (p.until == 0 && (exists t: Time :: Counts(z, p, earliest, now, t)) ==> InSome(z, p, now))
  }

  lemma ListableBetween(z: Zone, p: Rule, earliest: Time, now: Time)
    requires Anchored(z, p.begin)
    ensures var begin, end := Begin(z, p, earliest), End(p, now);
            Listable(z, p, earliest, now) <==> (begin < end ==> InSome(z, p, begin) && InSome(z, p, end - 1) && (p.until == 0 ==> InSome(z, p, now)))
  {
    hide InSome;
    hide Begin;
    hide End;
    hide Anchored;
    CountsBetween(z, p, earliest, now);
    var begin, end := Begin(z, p, earliest), End(p, now);
    hide Counts;
    if begin < end {
      assert Extreme(z, p, earliest, now, begin) && Extreme(z, p, earliest, now, end - 1);
      forall t | Extreme(z, p, earliest, now, t)
        ensures t == begin || t == end - 1
      {
        assert Counts(z, p, earliest, now, begin) && Counts(z, p, earliest, now, end - 1);
      }
    }
  }

  method IndexFrom(z: Zone, p: Rule, at: Time) returns (r: Option<int>)
    requires Proper(z) && Dated(z) && p.interval >= 1 && Anchored(z, p.begin) && at >= Anchor(z, p)
    ensures r.Some? <==> InSome(z, p, at)
    ensures r.Some? ==> In(z, p, at, r.value)
  {
    hide In;
    hide Proper;
    hide Dated;
    hide Anchored;
    var found, _, _ := Index(z, p, at);
    r := found;
  }

  /** The range of a revision's past periods, or none exactly when a period it needs cannot be computed. */
  method RangeOf(z: Zone, p: Rule, earliest: Time, now: Time) returns (ok: bool, first: int, last: int)
    requires Proper(z) && Dated(z) && p.interval >= 1
    ensures ok <==> Listable(z, p, earliest, now)
    ensures ok ==> forall i :: Past(z, p, earliest, now, i) <==> first <= i <= last
  {
    hide Boundary;
    hide In;
    hide Touches;
    hide Proper;
    hide Dated;
    hide InSome;
    AnchorInTime(z, p, earliest);
    hide Anchored;
    ok, first, last := false, 0, -1;
    if !Anchored(z, p.begin) {
      return;
    }
    ListableBetween(z, p, earliest, now);
    forall i: int
      ensures Past(z, p, earliest, now, i) <==> Touches(z, p, Begin(z, p, earliest), End(p, now), i) && !(p.until == 0 && In(z, p, now, i))
    {
      PastTouches(z, p, earliest, now, i);
    }
    hide Past;
    hide Listable;
    var begin, end := Begin(z, p, earliest), End(p, now);
    if end <= begin {
      NothingPast(z, p, earliest, now);
      return true, 0, -1;
    }
    var low := IndexFrom(z, p, begin);
    var high := IndexFrom(z, p, end - 1);
    if low.None? || high.None? {
      return;
    }
    first, last := low.value, high.value;
    forall i: int
      ensures Touches(z, p, begin, end, i) <==> first <= i <= last
    {
      TouchesBetween(z, p, begin, end, first, last, i);
    }
    if p.until == 0 {
      var current := IndexFrom(z, p, now);
      if current.None? {
        return;
      }
      CurrentIsLast(z, p, end - 1, now, last, current.value);
      OnlyCurrent(z, p, now, current.value);
      if last >= current.value {
        last := current.value - 1;
      }
    }
    ok := true;
  }

  lemma AnchorInTime(z: Zone, p: Rule, earliest: Time)
    ensures Anchored(z, p.begin) ==> Begin(z, p, earliest) >= Anchor(z, p)
  {
  }

  lemma NothingPast(z: Zone, p: Rule, earliest: Time, now: Time)
    requires Anchored(z, p.begin) && End(p, now) <= Begin(z, p, earliest)
    ensures forall i :: !Past(z, p, earliest, now, i)
  {
  }

  lemma OnlyCurrent(z: Zone, p: Rule, now: Time, current: int)
    requires Proper(z) && In(z, p, now, current)
    ensures forall i :: In(z, p, now, i) <==> i == current
  {
    hide In;
    forall i | In(z, p, now, i)
      ensures i == current
    {
      InOnce(z, p, now, i, current);
    }
  }

  // ------------------------------------------------------------------------------------------
  // Segments and pages
  // ------------------------------------------------------------------------------------------

  /** The segments name distinct revisions, in order. */
  predicate InOrder(segments: seq<Segment>) {
    forall i, j :: 0 <= i < j < |segments| ==> segments[i].revision < segments[j].revision
  }

  /** The segments cover exactly the past periods of the revisions up to `n`. */
  ghost predicate Covers(z: Zone, rules: seq<Rule>, earliest: Time, now: Time, segments: seq<Segment>, n: nat)
    requires n <= |rules|
  {
    && (forall k :: 0 <= k < n ==> Anchored(z, rules[k].begin))
    && (forall s :: s in segments ==> s.revision < n)
    && (forall k, i :: 0 <= k < n && Past(z, rules[k], earliest, now, i) ==>
      exists s :: s in segments && s.revision == k && s.first <= i <= s.last)
    && (forall s, i :: s in segments && s.first <= i <= s.last ==> Past(z, rules[s.revision], earliest, now, i))
  }

  method Segments(z: Zone, rules: seq<Rule>, earliest: Time, now: Time) returns (r: Option<seq<Segment>>)
    requires Proper(z) && Dated(z) && forall k :: 0 <= k < |rules| ==> rules[k].interval >= 1
    ensures r.Some? <==> forall k :: 0 <= k < |rules| ==> Listable(z, rules[k], earliest, now)
    ensures r.Some? ==> InOrder(r.value) && Covers(z, rules, earliest, now, r.value, |rules|)
  {
    hide InSome;
    hide Past;
    hide Proper;
    hide Dated;
    hide Anchored;
    var segments: seq<Segment> := [];
    for k := 0 to |rules|
      invariant InOrder(segments) && Covers(z, rules, earliest, now, segments, k)
      invariant forall j :: 0 <= j < k ==> Listable(z, rules[j], earliest, now)
    {
      var ok, first, last := RangeOf(z, rules[k], earliest, now);
      if !ok {
        return None;
      }
      ghost var before := segments;
      if first <= last {
        segments := segments + [Segment(k, first, last)];
      }
      CoversNext(z, rules, earliest, now, before, k, first, last);
    }
    return Some(segments);
  }

  lemma CoversNext(z: Zone, rules: seq<Rule>, earliest: Time, now: Time, segments: seq<Segment>, k: nat, first: int, last: int)
    requires k < |rules| && Covers(z, rules, earliest, now, segments, k) && Anchored(z, rules[k].begin)
    requires forall i :: Past(z, rules[k], earliest, now, i) <==> first <= i <= last
    ensures Covers(z, rules, earliest, now, if first <= last then segments + [Segment(k, first, last)] else segments, k + 1)
  {
    hide Past;
    hide Anchored;
    var next := if first <= last then segments + [Segment(k, first, last)] else segments;
    forall j, i | 0 <= j < k + 1 && Past(z, rules[j], earliest, now, i)
      ensures exists s :: s in next && s.revision == j && s.first <= i <= s.last
    {
      if j < k {
        var s :| s in segments && s.revision == j && s.first <= i <= s.last;
        assert s in next;
      } else {
        assert Segment(k, first, last) in next;
      }
    }
  }

  function Least(a: int, b: int): int {
    if a < b then a else b
  }

  /** The entries of a page. */
  function Slice(s: seq<Entry>, page: nat): seq<Entry>
    requires page >= 1
  {
    s[Least((page - 1) * PAGE_SIZE, |s|)..Least(page * PAGE_SIZE, |s|)]
  }

  function Drop(s: seq<Entry>, n: nat): seq<Entry> {
    if n >= |s| then [] else s[n..]
  }

  function Front(s: seq<Entry>, n: nat): seq<Entry> {
    if n >= |s| then s else s[..n]
  }

  /** Walks down a segment from an offset until there is no room left. */
  method Walk(s: Segment, offset: nat, room: nat) returns (taken: seq<Entry>)
    requires offset < Count(s)
    ensures taken == Front(Drop(Descending(s), offset), room)
  {
    taken := [];
    var index := s.last - offset;
    while index >= s.first && |taken| < room
      invariant index == s.last - offset - |taken| && index >= s.first - 1 && |taken| <= room
      invariant taken == Front(Drop(Descending(s), offset), |taken|)
    {
      taken := taken + [Entry(s.revision, index)];
      index := index - 1;
    }
  }

  lemma SkipSegment(d: seq<Entry>, rest: seq<Entry>, offset: nat)
    requires offset >= |d|
    ensures Drop(d + rest, offset) == Drop(rest, offset - |d|)
  {
  }

  lemma TakeSegment(d: seq<Entry>, rest: seq<Entry>, offset: nat, room: nat)
    requires offset < |d|
    ensures var taken := Front(Drop(d, offset), room);
            |taken| <= room && Front(Drop(d + rest, offset), room) == taken + Front(Drop(rest, 0), room - |taken|)
  {
  }

  /** What is still to come of a page, from a place in the listing. */
  function Rest(segments: seq<Segment>, k: nat, offset: nat, room: nat): seq<Entry>
    requires k <= |segments|
  {
    Front(Drop(Listing(segments[k..]), offset), room)
  }

  lemma RestSkips(segments: seq<Segment>, k: nat, offset: nat, room: nat)
    requires k < |segments| && offset >= Count(segments[k])
    ensures Rest(segments, k, offset, room) == Rest(segments, k + 1, offset - Count(segments[k]), room)
  {
    assert segments[k..][1..] == segments[k + 1..];
    SkipSegment(Descending(segments[k]), Listing(segments[k + 1..]), offset);
  }

  lemma RestTakes(segments: seq<Segment>, k: nat, offset: nat, room: nat)
    requires k < |segments| && offset < Count(segments[k])
    ensures var taken := Front(Drop(Descending(segments[k]), offset), room);
            |taken| <= room && Rest(segments, k, offset, room) == taken + Rest(segments, k + 1, 0, room - |taken|)
  {
    assert segments[k..][1..] == segments[k + 1..];
    TakeSegment(Descending(segments[k]), Listing(segments[k + 1..]), offset, room);
  }

  lemma RestEnds(segments: seq<Segment>, k: nat, offset: nat, room: nat)
    requires k <= |segments| && (k == |segments| || room == 0)
    ensures Rest(segments, k, offset, room) == []
  {
  }

  lemma RestIsSlice(segments: seq<Segment>, page: nat)
    requires page >= 1
    ensures Rest(segments, 0, (page - 1) * PAGE_SIZE, PAGE_SIZE) == Slice(Listing(segments), page)
    ensures (page - 1) * PAGE_SIZE >= Total(segments) ==> Slice(Listing(segments), page) == []
  {
    assert segments[0..] == segments;
  }

  /** A page skips whole segments, then walks down from its place in the first one that is left. */
  method Page(segments: seq<Segment>, page: nat) returns (periods: seq<Entry>)
    requires page >= 1
    ensures periods == Slice(Listing(segments), page)
  {
    hide Rest;
    hide Slice;
    hide Front;
    hide Drop;
    hide Count;
    hide Listing;
    periods := [];
    var offset: nat := (page - 1) * PAGE_SIZE;
    RestIsSlice(segments, page);
    if offset >= Total(segments) {
      return;
    }
    var k := 0;
    while k < |segments| && |periods| < PAGE_SIZE
      invariant k <= |segments| && |periods| <= PAGE_SIZE
      invariant periods + Rest(segments, k, offset, PAGE_SIZE - |periods|) == Slice(Listing(segments), page)
    {
      if offset >= Count(segments[k]) {
        RestSkips(segments, k, offset, PAGE_SIZE - |periods|);
        offset := offset - Count(segments[k]);
      } else {
        RestTakes(segments, k, offset, PAGE_SIZE - |periods|);
        var taken := Walk(segments[k], offset, PAGE_SIZE - |periods|);
        periods := periods + taken;
        offset := 0;
      }
      k := k + 1;
    }
    RestEnds(segments, k, offset, PAGE_SIZE - |periods|);
  }

  const MAX_PAGE := 100_000

  datatype HistoryError = PageOutOfRange | UnknownMachine | NotComputable

  /** One page of a machine's history, with the number of periods in all of it. */
  method History(z: Zone, rules: seq<Rule>, known: bool, earliest: Option<Time>, page: int, now: Time)
    returns (r: Result<(nat, seq<Entry>), HistoryError>, ghost segments: seq<Segment>)
    requires Proper(z) && Dated(z) && forall k :: 0 <= k < |rules| ==> rules[k].interval >= 1
    ensures r == Err(PageOutOfRange) <==> page < 1 || page > MAX_PAGE
    ensures r == Err(UnknownMachine) <==> 1 <= page <= MAX_PAGE && !known
    ensures r == Err(NotComputable) <==>
              1 <= page <= MAX_PAGE && known && earliest.Some? && exists k :: 0 <= k < |rules| && !Listable(z, rules[k], earliest.value, now)
    ensures r.Ok? && earliest.None? ==> r.value == (0, [])
    ensures r.Ok? && earliest.Some? ==>
              && InOrder(segments) && Covers(z, rules, earliest.value, now, segments, |rules|)
              && page >= 1 && r.value == (Total(segments), Slice(Listing(segments), page))
  {
    hide Covers;
    hide Listable;
    hide InOrder;
    hide Slice;
    segments := [];
    if page < 1 || page > MAX_PAGE {
      return Err(PageOutOfRange), segments;
    }
    if !known {
      return Err(UnknownMachine), segments;
    }
    if earliest.None? {
      return Ok((0, [])), segments;
    }
    var found := Segments(z, rules, earliest.value, now);
    if found.None? {
      return Err(NotComputable), segments;
    }
    var periods := Page(found.value, page);
    return Ok((Total(found.value), periods)), found.value;
  }

  /** The first pages one after another. */
  function Pages(s: seq<Entry>, n: nat): seq<Entry> {
    if n == 0 then [] else Pages(s, n - 1) + Slice(s, n)
  }

  lemma {:induction false} PagesArePrefix(s: seq<Entry>, n: nat)
    ensures Pages(s, n) == s[..Least(n * PAGE_SIZE, |s|)]
  {
    if n > 0 {
      PagesArePrefix(s, n - 1);
    }
  }

  /** Enough pages are the whole listing. */
  lemma PagesAreEverything(s: seq<Entry>, n: nat)
    requires n * PAGE_SIZE >= |s|
    ensures Pages(s, n) == s
  {
    PagesArePrefix(s, n);
  }

  lemma {:induction false} ListingHas(segments: seq<Segment>, x: Entry)
    ensures x in Listing(segments) <==> exists s :: s in segments && s.revision == x.revision && s.first <= x.index <= s.last
  {
    if segments != [] {
      var s := segments[0];
      ListingHas(segments[1..], x);
      assert forall t :: t in segments <==> t == s || t in segments[1..];
      if s.revision == x.revision && s.first <= x.index <= s.last {
        assert Descending(s)[s.last - x.index] == x;
      }
    }
  }

  /** A page entry comes before another exactly when its revision is newer, or its period of the same revision is later. */
  predicate NewestFirst(r: seq<Entry>) {
    forall i, j :: 0 <= i < j < |r| ==>
      r[i].revision < r[j].revision || (r[i].revision == r[j].revision && r[i].index > r[j].index)
  }

  lemma {:induction false} ListingIsNewestFirst(segments: seq<Segment>)
    requires InOrder(segments)
    ensures NewestFirst(Listing(segments))
  {
    if segments != [] {
      var s, rest := segments[0], Listing(segments[1..]);
      ListingIsNewestFirst(segments[1..]);
      forall j | 0 <= j < |rest|
        ensures rest[j].revision > s.revision
      {
        ListingHas(segments[1..], rest[j]);
        var t :| t in segments[1..] && t.revision == rest[j].revision;
      }
    }
  }

  /**
   All pages together show every past period of every revision exactly once, newest first. The
   rules are given newest first.
   */
  lemma PagesShowEveryPeriodOnce(z: Zone, rules: seq<Rule>, earliest: Time, now: Time, segments: seq<Segment>, n: nat)
    requires InOrder(segments) && Covers(z, rules, earliest, now, segments, |rules|)
    requires n * PAGE_SIZE >= Total(segments)
    ensures NewestFirst(Pages(Listing(segments), n))
    ensures forall k: nat, i :: Entry(k, i) in Pages(Listing(segments), n) <==> k < |rules| && Past(z, rules[k], earliest, now, i)
  {
    hide Past;
    hide Anchored;
    PagesAreEverything(Listing(segments), n);
    ListingIsNewestFirst(segments);
    forall k: nat, i
      ensures Entry(k, i) in Listing(segments) <==> k < |rules| && Past(z, rules[k], earliest, now, i)
    {
      ListingHas(segments, Entry(k, i));
    }
  }
}
