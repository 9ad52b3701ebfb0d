/**
 Renewal periods of a machine's traffic: boundaries of a rule, the period of an instant, and the
 migration of the older form with an end date.
 */
module TrafficPeriods {
  import opened Wrappers
  import opened Calendar

  const MAX_NS := 0x7fff_ffff_ffff_ffff
  const MIN_NS := -0x8000_0000_0000_0000

  datatype Unit = Day | Month | Year | Unknown(text: string)

  /** `until` is zero while the rule is in force. An `interval` of zero marks the older form. */
  datatype Rule = Rule(member: string, begin: Date, interval: nat, unit: Unit, from: Time, until: Time, legacy: bool, end: Option<Date>)

  predicate InRange(t: Time) {
    MIN_NS <= t <= MAX_NS
  }

  predicate Anchored(z: Zone, d: Date) {
    ValidDate(d) && 1677 <= d.year <= 2262 && InRange(z.start(Ordinal(d)))
  }

  function Anchor(z: Zone, p: Rule): Time
    requires Anchored(z, p.begin)
  {
    z.start(Ordinal(p.begin))
  }

  function Step(p: Rule): nat {
    if p.unit == Year then 12 * p.interval else p.interval
  }

  /** The month a boundary of a month or year rule falls in. */
  function MonthAt(p: Rule, index: nat): nat
    requires p.begin.month >= 1
  {
    MonthIndex(p.begin) + index * Step(p)
  }

  /** The day number of a boundary: the anchor's day of the month, or the last one when it is too short. */
  function DayAt(p: Rule, index: nat): int
    requires p.begin.month >= 1
  {
    if p.unit == Day then Ordinal(p.begin) + index * p.interval
    else
      var month := MonthAt(p, index);
      MonthStart(month) + (if p.begin.day > DaysIn(month) then DaysIn(month) else p.begin.day) - 1
  }

  predicate Computable(z: Zone, p: Rule, index: int) {
    && Anchored(z, p.begin) && 0 <= index <= 200_000 && p.interval >= 1 && !p.unit.Unknown?
    && (p.unit != Day ==> MonthAt(p, index) / 12 <= 9999)
  }

  function Boundary(z: Zone, p: Rule, index: int): Option<Time> {
    if Computable(z, p, index) then Some(z.start(DayAt(p, index))) else None
  }

  /**
   The calendar's words for it: a boundary of a month or year rule is the day of the anchor in the
   month so many months later, or the last day of that month if it has no such day.
   */
  lemma BoundaryDate(p: Rule, index: nat)
    requires ValidDate(p.begin) && p.unit != Day
    ensures var months := 12 * p.begin.year + p.begin.month - 1 + index * (if p.unit == Year then 12 * p.interval else p.interval);
            var date := Date(months / 12, months % 12 + 1, p.begin.day);
            var last := DaysIn(months);
            && ValidDate(date.(day := last)) && !ValidDate(date.(day := last + 1))
            && (ValidDate(date) ==> DayAt(p, index) == Ordinal(date))
            && (!ValidDate(date) ==> last < date.day && DayAt(p, index) == Ordinal(date.(day := last)))
  {
    Clamped(MonthAt(p, index), p.begin.day);
    hide MonthStart;
    hide DaysIn;
    hide ValidDate;
    hide Ordinal;
  }

  /** The day of a month, or its last one. */
  lemma Clamped(months: nat, day: nat)
    requires day >= 1
    ensures var date := Date(months / 12, months % 12 + 1, day);
            var n := MonthStart(months) + (if day > DaysIn(months) then DaysIn(months) else day) - 1;
            var last := DaysIn(months);
            && ValidDate(date.(day := last)) && !ValidDate(date.(day := last + 1))
            && (ValidDate(date) ==> n == Ordinal(date))
            && (!ValidDate(date) ==> last < date.day && n == Ordinal(date.(day := last)))
  {
    hide MonthStart;
    var date := Date(months / 12, months % 12 + 1, day);
    assert 12 * date.year + date.month - 1 == months;
  }

  /** A year later is the same month and day. */
  lemma YearsLater(p: Rule, index: nat)
    requires ValidDate(p.begin) && p.unit == Year
    ensures var date := Date(p.begin.year + index * p.interval, p.begin.month, p.begin.day);
            ValidDate(date) ==> DayAt(p, index) == Ordinal(date)
  {
    hide MonthStart;
    var date := Date(p.begin.year + index * p.interval, p.begin.month, p.begin.day);
    assert index * Step(p) == 12 * (index * p.interval);
    assert MonthAt(p, index) == MonthIndex(date);
  }

  lemma DaysLater(p: Rule, index: nat)
    requires ValidDate(p.begin) && p.unit == Day
    ensures DayAt(p, index) == Ordinal(p.begin) + index * p.interval
  {
  }

  /** A boundary is the start of its day; it cannot be computed far from the clock's range, for an unknown unit or after the year 9999. */
  lemma BoundaryFails(z: Zone, p: Rule, index: int)
    ensures Boundary(z, p, index).Some? <==>
            && ValidDate(p.begin) && 1677 <= p.begin.year <= 2262
            && -0x8000_0000_0000_0000 <= z.start(Ordinal(p.begin)) <= 0x7fff_ffff_ffff_ffff
            && 0 <= index <= 200_000 && p.interval >= 1 && p.unit in {Day, Month, Year}
            && (p.unit == Month ==> (12 * p.begin.year + p.begin.month - 1 + index * p.interval) / 12 <= 9999)
            && (p.unit == Year ==> (12 * p.begin.year + p.begin.month - 1 + index * (12 * p.interval)) / 12 <= 9999)
    ensures Boundary(z, p, index).Some? ==> Boundary(z, p, index).value == z.start(DayAt(p, index))
  {
    hide MonthStart;
    hide DaysIn;
  }

  // ------------------------------------------------------------------------------------------
  // Boundaries increase
  // ------------------------------------------------------------------------------------------

  lemma Scale(a: nat, b: nat, s: nat)
    requires a < b && s >= 1
    ensures a * s < b * s
  {
  }

  lemma DaysIncrease(p: Rule, i: nat, j: nat)
    requires ValidDate(p.begin) && p.interval >= 1 && i < j
    ensures DayAt(p, i) < DayAt(p, j)
  {
    hide MonthStart;
    if p.unit == Day {
      Scale(i, j, p.interval);
    } else {
      Scale(i, j, Step(p));
      MonthsApart(MonthAt(p, i), MonthAt(p, j));
    }
  }

  /** However short the months between are, a later boundary is later. */
  lemma BoundariesIncrease(z: Zone, p: Rule, i: nat, j: nat)
    requires Proper(z) && i < j && Boundary(z, p, i).Some? && Boundary(z, p, j).Some?
    ensures Boundary(z, p, i).value < Boundary(z, p, j).value
  {
    DaysIncrease(p, i, j);
    StartsIncrease(z, DayAt(p, i), DayAt(p, j));
  }

  /** If a boundary can be computed, so can every earlier one. */
  lemma EarlierComputable(z: Zone, p: Rule, i: nat, j: nat)
    requires i <= j && Boundary(z, p, j).Some?
    ensures Boundary(z, p, i).Some?
  {
    if i < j && p.unit != Day {
      Scale(i, j, Step(p));
    }
  }

  // ------------------------------------------------------------------------------------------
  // The period of an instant
  // ------------------------------------------------------------------------------------------

  /** The instant lies in period `i`. */
  predicate In(z: Zone, p: Rule, at: Time, i: int) {
    && i >= 0 && Boundary(z, p, i).Some? && Boundary(z, p, i + 1).Some?
    && Boundary(z, p, i).value <= at < Boundary(z, p, i + 1).value
  }

  /** An instant between two consecutive boundary days lies in no other period. */
  lemma InOnly(z: Zone, p: Rule, at: Time, k: nat, i: int)
    requires Proper(z) && ValidDate(p.begin) && p.interval >= 1
    requires z.start(DayAt(p, k)) <= at < z.start(DayAt(p, k + 1))
    requires In(z, p, at, i)
    ensures i == k
  {
    hide DayAt;
    if i < k {
      if i + 1 < k {
        DaysIncrease(p, i + 1, k);
        StartsIncrease(z, DayAt(p, i + 1), DayAt(p, k));
      }
    } else if k < i {
      if k + 1 < i {
        DaysIncrease(p, k + 1, i);
        StartsIncrease(z, DayAt(p, k + 1), DayAt(p, i));
      }
    }
  }

  /** No instant lies in two periods of a rule. */
  lemma InOnce(z: Zone, p: Rule, at: Time, i: int, j: int)
    requires Proper(z) && In(z, p, at, i) && In(z, p, at, j)
    ensures i == j
  {
    hide DayAt;
    hide ValidDate;
    InOnly(z, p, at, i, j);
  }

  /** The first guess: whole days, months or years since the anchor, by the interval. */
  function Estimate(z: Zone, p: Rule, at: Time): int
    requires Anchored(z, p.begin) && p.interval >= 1
  {
    match p.unit
    case Day => (z.day(at) - Ordinal(p.begin)) / p.interval
    case Month => (z.month(at) - MonthIndex(p.begin)) / p.interval
    case _ => (z.month(at) / 12 - p.begin.year) / p.interval
  }

  lemma DivBounds(x: nat, s: nat)
    requires s >= 1
    ensures (x / s) * s <= x < (x / s + 1) * s
  {
    assert x == (x / s) * s + x % s;
    assert (x / s + 1) * s == (x / s) * s + s;
  }

  lemma OrdinalInMonth(d: Date)
    requires ValidDate(d)
    ensures MonthStart(MonthIndex(d)) <= Ordinal(d) < MonthStart(MonthIndex(d) + 1)
    ensures Ordinal(d) >= 0
  {
    hide MonthStart;
    hide DaysIn;
    MonthStep(MonthIndex(d));
    StartsAtZero(MonthIndex(d));
  }

  lemma StartsAtZero(month: nat)
    ensures MonthStart(month) >= 0
  {
    hide DaysBefore;
    assert Leaps(month / 12) >= 0;
  }

  lemma LaterDayLaterMonth(a: nat, b: nat, d: int, e: int)
    requires MonthStart(a) <= d < MonthStart(a + 1) && MonthStart(b) <= e < MonthStart(b + 1) && d <= e
    ensures a <= b
  {
    hide MonthStart;
    if b < a {
      MonthStep(b);
      MonthsApart(b, a);
    }
  }

  /** The guess is right or one too far, never too low. */
  lemma EstimateIsClose(z: Zone, p: Rule, at: Time)
    requires Proper(z) && Dated(z) && Anchored(z, p.begin) && p.interval >= 1 && !p.unit.Unknown? && at >= Anchor(z, p)
    ensures var e := Estimate(z, p, at);
            && e >= 0
            && at < z.start(DayAt(p, e + 1))
            && (z.start(DayAt(p, e)) <= at || (e > 0 && z.start(DayAt(p, e - 1)) <= at))
  {
    hide MonthStart;
    hide DayAt;
    hide Ordinal;
    OrdinalInMonth(p.begin);
    DayReached(z, Ordinal(p.begin), at);
    var today := z.day(at);
    LaterDayLaterMonth(MonthIndex(p.begin), z.month(at), Ordinal(p.begin), today);
    var e := Estimate(z, p, at);
    EstimateInDays(z, p, at);
    DayReached(z, DayAt(p, e + 1), at);
    DayReached(z, DayAt(p, e), at);
    if e > 0 {
      DayReached(z, DayAt(p, e - 1), at);
    }
  }

  /** The same, in day numbers. */
  lemma EstimateInDays(z: Zone, p: Rule, at: Time)
    requires Proper(z) && Dated(z) && Anchored(z, p.begin) && p.interval >= 1 && !p.unit.Unknown?
    requires 0 <= Ordinal(p.begin) <= z.day(at) && MonthIndex(p.begin) <= z.month(at)
    ensures var e := Estimate(z, p, at);
            e >= 0 && z.day(at) < DayAt(p, e + 1) && (DayAt(p, e) <= z.day(at) || (e > 0 && DayAt(p, e - 1) <= z.day(at)))
  {
    hide MonthStart;
    hide DayAt;
    hide Ordinal;
    hide Anchored;
    ValidAnchor(z, p.begin);
    var e, month := Estimate(z, p, at), z.month(at);
    FirstDay(p);
    match p.unit
    case Day =>
      DayGuess(p, z.day(at));
    case Month =>
      MonthGuess(p, month);
      GuessedMonth(p, e, month, z.day(at));
    case Year =>
      YearGuess(p, month);
      GuessedMonth(p, e, month, z.day(at));
  }

  lemma ValidAnchor(z: Zone, d: Date)
    requires Anchored(z, d)
    ensures ValidDate(d) && d.month >= 1
  {
  }

  lemma FirstDay(p: Rule)
    requires ValidDate(p.begin)
    ensures DayAt(p, 0) == Ordinal(p.begin)
  {
  }

  lemma DayGuess(p: Rule, today: int)
    requires p.unit == Day && p.interval >= 1 && p.begin.month >= 1 && Ordinal(p.begin) <= today
    ensures var e := (today - Ordinal(p.begin)) / p.interval; e >= 0 && DayAt(p, e) <= today < DayAt(p, e + 1)
  {
    hide Ordinal;
    hide MonthAt;
    var e := (today - Ordinal(p.begin)) / p.interval;
    DivBounds(today - Ordinal(p.begin), p.interval);
    assert DayAt(p, e) == Ordinal(p.begin) + e * p.interval;
    assert DayAt(p, e + 1) == Ordinal(p.begin) + (e + 1) * p.interval;
  }

  lemma MonthGuess(p: Rule, month: nat)
    requires p.unit == Month && p.interval >= 1 && p.begin.month >= 1 && MonthIndex(p.begin) <= month
    ensures var e := (month - MonthIndex(p.begin)) / p.interval;
            e >= 0 && MonthAt(p, e) <= month < MonthAt(p, e + 1) && (e > 0 ==> MonthAt(p, e - 1) < month)
  {
    var e := (month - MonthIndex(p.begin)) / p.interval;
    DivBounds(month - MonthIndex(p.begin), p.interval);
    if e > 0 {
      Scale(e - 1, e, p.interval);
    }
  }

  /** A boundary in an earlier month is earlier, and the guess cannot be two months too far. */
  lemma GuessedMonth(p: Rule, e: nat, month: nat, today: int)
    requires ValidDate(p.begin) && p.interval >= 1 && p.unit != Day && MonthIndex(p.begin) <= month
    requires MonthStart(month) <= today < MonthStart(month + 1)
    requires e > 0 ==> MonthAt(p, e - 1) < month
    requires month < MonthAt(p, e + 1)
    requires e == 0 ==> Ordinal(p.begin) <= today
    ensures today < DayAt(p, e + 1)
    ensures DayAt(p, e) <= today || (e > 0 && DayAt(p, e - 1) <= today)
  {
    hide MonthStart;
    MonthStep(month);
    MonthsApart(month, MonthAt(p, e + 1));
    if e > 0 {
      MonthsApart(MonthAt(p, e - 1), month);
    }
  }

  lemma YearGuess(p: Rule, month: nat)
    requires p.unit == Year && p.interval >= 1 && 1 <= p.begin.month <= 12 && MonthIndex(p.begin) <= month
    ensures var e := (month / 12 - p.begin.year) / p.interval;
            e >= 0 && month < MonthAt(p, e + 1) && (e > 0 ==> MonthAt(p, e - 1) < month)
  {
    var years := month / 12 - p.begin.year;
    var e := years / p.interval;
    DivBounds(years, p.interval);
    assert (e + 1) * Step(p) == 12 * ((e + 1) * p.interval);
    if e > 0 {
      assert (e - 1) * Step(p) == 12 * ((e - 1) * p.interval);
      assert (e - 1) * p.interval == e * p.interval - p.interval;
    }
  }

  lemma BoundaryIs(z: Zone, p: Rule, i: nat)
    requires p.begin.month >= 1 && Boundary(z, p, i).Some?
    ensures Boundary(z, p, i).value == z.start(DayAt(p, i))
  {
  }

  lemma IsIn(z: Zone, p: Rule, at: Time, k: nat)
    requires p.begin.month >= 1 && Boundary(z, p, k + 1).Some?
    requires z.start(DayAt(p, k)) <= at < z.start(DayAt(p, k + 1))
    ensures In(z, p, at, k)
  {
    hide DayAt;
    EarlierComputable(z, p, k, k + 1);
  }

  lemma UnknownUnit(z: Zone, p: Rule, at: Time)
    requires p.unit.Unknown?
    ensures forall i :: !In(z, p, at, i)
  {
  }

  /** Without one of its boundaries, or an earlier one, an instant has no period. */
  lemma Missing(z: Zone, p: Rule, at: Time, k: nat, missing: nat)
    requires Proper(z) && ValidDate(p.begin) && p.interval >= 1
    requires z.start(DayAt(p, k)) <= at < z.start(DayAt(p, k + 1))
    requires Boundary(z, p, missing).None? && missing <= k + 1
    ensures forall i :: !In(z, p, at, i)
  {
    hide DayAt;
    hide Boundary;
    forall i | In(z, p, at, i)
      ensures false
    {
      InOnly(z, p, at, k, i);
      EarlierComputable(z, p, missing, k + 1);
    }
  }

  /** The first number whose next boundary is after the instant is its period. */
  lemma Found(z: Zone, p: Rule, at: Time, k: nat, i: nat)
    requires Proper(z) && ValidDate(p.begin) && p.interval >= 1 && i <= k
    requires z.start(DayAt(p, k)) <= at < z.start(DayAt(p, k + 1))
    requires Boundary(z, p, i + 1).Some? && z.start(DayAt(p, i + 1)) > at
    ensures i == k && In(z, p, at, k)
  {
    hide DayAt;
    hide Boundary;
    if i + 1 < k {
      DaysIncrease(p, i + 1, k);
      StartsIncrease(z, DayAt(p, i + 1), DayAt(p, k));
    }
    IsIn(z, p, at, i);
  }

  /** A boundary that is not after the instant comes no later than the guess. */
  lemma NotPastGuess(z: Zone, p: Rule, at: Time, guess: nat, k: nat)
    requires Proper(z) && ValidDate(p.begin) && p.interval >= 1
    requires at < z.start(DayAt(p, guess + 1)) && z.start(DayAt(p, k)) <= at
    ensures k <= guess
  {
    hide DayAt;
    if k > guess + 1 {
      DaysIncrease(p, guess + 1, k);
      StartsIncrease(z, DayAt(p, guess + 1), DayAt(p, k));
    }
  }

  /** Lowers a guess until its boundary is not after the instant; `steps` counts how often. */
  method Lower(z: Zone, p: Rule, at: Time, guess: nat, ghost k: nat) returns (r: Option<int>, ghost steps: nat)
    requires Proper(z) && ValidDate(p.begin) && p.interval >= 1 && k <= guess <= k + 1
    requires z.start(DayAt(p, k)) <= at < z.start(DayAt(p, k + 1))
    ensures steps <= guess - k && (r.Some? ==> r.value == k && steps == guess - k)
    ensures r.None? ==> forall i :: !In(z, p, at, i)
  {
    hide DayAt;
    hide Computable;
    hide Boundary;
    hide In;
    hide ValidDate;
    hide Proper;
    ValidMonth(p.begin);
    var estimate := guess;
    steps := 0;
    while estimate > 0
      invariant k <= estimate <= guess && steps == guess - estimate
    {
      var boundary := Boundary(z, p, estimate);
      if boundary.None? {
        Missing(z, p, at, k, estimate);
        return None, steps;
      }
      BoundaryIs(z, p, estimate);
      if boundary.value <= at {
        NotPastGuess(z, p, at, k, estimate);
        break;
      }
      estimate := estimate - 1;
      steps := steps + 1;
    }
    return Some(estimate), steps;
  }

  /** Raises a number until the boundary after it is past the instant; `steps` counts how often. */
  method Raise(z: Zone, p: Rule, at: Time, from: nat, ghost k: nat) returns (r: Option<int>, ghost steps: nat)
    requires Proper(z) && ValidDate(p.begin) && p.interval >= 1 && from <= k
    requires z.start(DayAt(p, k)) <= at < z.start(DayAt(p, k + 1))
    ensures r.Some? ==> r.value == k && In(z, p, at, k)
    ensures r.None? ==> forall i :: !In(z, p, at, i)
    ensures steps <= k - from && (r.Some? ==> steps == k - from)
  {
    hide DayAt;
    hide Computable;
    hide Boundary;
    hide In;
    hide ValidDate;
    hide Proper;
    ValidMonth(p.begin);
    var estimate := from;
    steps := 0;
    while true
      invariant from <= estimate <= k && steps == estimate - from
      decreases k - estimate
    {
      var next := Boundary(z, p, estimate + 1);
      if next.None? {
        Missing(z, p, at, k, estimate + 1);
        return None, steps;
      }
      BoundaryIs(z, p, estimate + 1);
      if next.value > at {
        Found(z, p, at, k, estimate);
        break;
      }
      NotPastGuess(z, p, at, k, estimate + 1);
      estimate := estimate + 1;
      steps := steps + 1;
    }
    return Some(estimate), steps;
  }

  lemma ValidMonth(d: Date)
    requires ValidDate(d)
    ensures d.month >= 1
  {
  }

  /**
   The period an instant lies in, or -1 before the anchor. The guess is the answer or the number
   after it, so the first loop corrects it once at most and the second never does.
   */
  method Index(z: Zone, p: Rule, at: Time) returns (r: Option<int>, ghost lowered: nat, ghost raised: nat)
    requires Proper(z) && Dated(z) && p.interval >= 1
    ensures !Anchored(z, p.begin) ==> r == None
    ensures Anchored(z, p.begin) && at < Anchor(z, p) ==> r == Some(-1)
    ensures Anchored(z, p.begin) && at >= Anchor(z, p) ==> (r.Some? ==> In(z, p, at, r.value)) && (r.None? ==> forall i :: !In(z, p, at, i))
    ensures Anchored(z, p.begin) && at >= Anchor(z, p) && r.Some? ==> r.value == Estimate(z, p, at) - lowered
    ensures lowered <= 1 && raised == 0
  {
    hide DayAt;
    hide MonthStart;
    hide Estimate;
    hide Anchored;
    hide ValidDate;
    hide Computable;
    hide MonthAt;
    hide Boundary;
    hide In;
    hide Ordinal;
    hide Proper;
    hide Dated;
    lowered, raised := 0, 0;
    if !Anchored(z, p.begin) {
      return None, lowered, raised;
    }
    if at < Anchor(z, p) {
      return Some(-1), lowered, raised;
    }
    if p.unit.Unknown? {
      UnknownUnit(z, p, at);
      return None, lowered, raised;
    }
    ValidAnchor(z, p.begin);
    EstimateIsClose(z, p, at);
    var guess := Estimate(z, p, at);
    ghost var k := if z.start(DayAt(p, guess)) <= at then guess else guess - 1;
    var estimate;
    estimate, lowered := Lower(z, p, at, guess, k);
    if estimate.None? {
      return None, lowered, raised;
    }
    r, raised := Raise(z, p, at, estimate.value, k);
  }

  // ------------------------------------------------------------------------------------------
  // The older form
  // ------------------------------------------------------------------------------------------

  /** Differences of instants are measured up to this many nanoseconds, a little under 106752 days. */
  const LONGEST := MAX_NS
  const LONGEST_DAYS := 106_751

  predicate NotBefore(a: Date, b: Date) {
    a.year > b.year || (a.year == b.year && (a.month > b.month || (a.month == b.month && a.day >= b.day)))
  }

  predicate OldBounds(z: Zone, begin: Date, end: Date) {
    && Anchored(z, begin) && ValidDate(end) && NotBefore(end, begin)
    && InRange(z.start(Ordinal(end) + 1))
    && z.start(Ordinal(end) + 1) - z.start(Ordinal(begin)) < LONGEST
  }

  /** The order of dates is that of their days. */
  lemma NotBeforeIsOrdinal(a: Date, b: Date)
    requires ValidDate(a) && ValidDate(b)
    ensures NotBefore(a, b) <==> Ordinal(b) <= Ordinal(a)
  {
    if NotBefore(a, b) {
      LaterDate(a, b);
    } else {
      EarlierDate(a, b);
    }
  }

  lemma EarlierDate(a: Date, b: Date)
    requires ValidDate(a) && ValidDate(b) && !NotBefore(a, b)
    ensures Ordinal(a) < Ordinal(b)
  {
    var m, n := MonthIndex(a), MonthIndex(b);
    assert m < n || (m == n && a.day < b.day);
    if m < n {
      MonthsApart(m, n);
    }
    hide MonthStart;
    hide DaysIn;
    hide NotBefore;
  }

  /** The dates of an older period can be counted: both start within the clock's range, and the span is in that of a duration. */
  lemma OldBoundsAre(z: Zone, begin: Date, end: Date)
    ensures OldBounds(z, begin, end) <==>
            && ValidDate(begin) && 1677 <= begin.year <= 2262 && ValidDate(end) && Ordinal(begin) <= Ordinal(end)
            && -0x8000_0000_0000_0000 <= z.start(Ordinal(begin)) <= 0x7fff_ffff_ffff_ffff
            && -0x8000_0000_0000_0000 <= z.start(Ordinal(end) + 1) <= 0x7fff_ffff_ffff_ffff
            && z.start(Ordinal(end) + 1) - z.start(Ordinal(begin)) < 0x7fff_ffff_ffff_ffff
  {
    if ValidDate(begin) && ValidDate(end) {
      NotBeforeIsOrdinal(end, begin);
    }
    hide MonthStart;
    hide DaysIn;
  }

  /** What the validator asks of a rule. */
  lemma RuleIsValid(z: Zone, p: Rule)
    ensures ValidRule(z, p) <==>
            && p.end.None? && ValidDate(p.begin) && 1677 <= p.begin.year <= 2262
            && -0x8000_0000_0000_0000 <= z.start(Ordinal(p.begin)) <= 0x7fff_ffff_ffff_ffff
            && p.interval > 0 && (p.interval < 367 || (p.legacy && p.unit == Day && p.interval < 200_001))
            && p.unit in {Day, Month, Year}
            && p.from > -1 && (p.until == 0 || p.from < p.until) && Boundary(z, p, 1).Some?
  {
    hide MonthStart;
    hide DaysIn;
  }

  predicate EffectiveFits(p: Rule) {
    p.from >= 0 && p.until >= 0 && (p.until > 0 ==> p.until > p.from)
  }

  predicate ValidRule(z: Zone, p: Rule) {
    && p.end == None && Anchored(z, p.begin)
    && 1 <= p.interval <= 200_000 && (p.interval <= 366 || (p.legacy && p.unit == Day))
    && !p.unit.Unknown? && EffectiveFits(p) && Boundary(z, p, 1).Some?
  }

  /** How many days a span is counted as. */
  function SpanDays(days: nat): nat {
    if days > LONGEST_DAYS then LONGEST_DAYS else days
  }

  lemma {:induction false} MonthsShort(a: nat, n: nat)
    ensures MonthStart(a + n) <= MonthStart(a) + 31 * n
    decreases n
  {
    hide MonthStart;
    if n > 0 {
      MonthsShort(a, n - 1);
      MonthStep(a + n - 1);
    }
  }

  /** A rule of at most 366 months first renews within 31 times as many days. */
  lemma FirstRenewal(p: Rule)
    requires ValidDate(p.begin) && p.unit != Day && Step(p) <= 366
    ensures DayAt(p, 1) - Ordinal(p.begin) <= LONGEST_DAYS
  {
    hide MonthStart;
    MonthsShort(MonthIndex(p.begin), Step(p));
  }

  lemma LaterDate(a: Date, b: Date)
    requires ValidDate(a) && ValidDate(b) && NotBefore(a, b)
    ensures Ordinal(b) <= Ordinal(a)
  {
    hide MonthStart;
    if MonthIndex(b) < MonthIndex(a) {
      MonthsApart(MonthIndex(b), MonthIndex(a));
    } else {
      SameMonth(a, b);
    }
  }

  lemma SameMonth(a: Date, b: Date)
    requires ValidDate(a) && ValidDate(b) && NotBefore(a, b) && MonthIndex(a) <= MonthIndex(b)
    ensures MonthIndex(a) == MonthIndex(b) && b.day <= a.day
  {
  }

  /** Twelve months are a year. */
  lemma WholeYears(z: Zone, p: Rule, n: nat)
    requires p.begin.month >= 1 && n >= 1 && n % 12 == 0
    ensures Boundary(z, p.(interval := n, unit := Month), 1) == Boundary(z, p.(interval := n / 12, unit := Year), 1)
  {
    hide MonthStart;
    hide Ordinal;
    hide DaysIn;
    hide Anchored;
  }

  /**
   Turns a period with an end date into a rule. It is accepted exactly when its dates can be
   counted, and its first renewal is the old end exactly when the span is at most 106751 days.
   */
  method MigrateRule(z: Zone, p: Rule) returns (r: Option<Rule>)
    requires Proper(z) && p.interval == 0
    ensures r.Some? <==> p.end.Some? && OldBounds(z, p.begin, p.end.value) && EffectiveFits(p)
    ensures r.Some? ==>
              && ValidRule(z, r.value) && r.value.member == p.member && r.value.begin == p.begin
              && r.value.from == p.from && r.value.until == p.until
              && (Boundary(z, r.value, 1) == Some(z.start(Ordinal(p.end.value) + 1))
                <==> Ordinal(p.end.value) + 1 - Ordinal(p.begin) <= LONGEST_DAYS)
  {
    hide MonthStart;
    hide DayAt;
    hide Ordinal;
    hide Proper;
    if p.end.None? || !OldBounds(z, p.begin, p.end.value) {
      return None;
    }
    var exclusive := z.start(Ordinal(p.end.value) + 1);
    var days := Ordinal(p.end.value) + 1 - Ordinal(p.begin);
    LaterDate(p.end.value, p.begin);
    var q := p;
    for n := 1 to 367
      invariant q == p
    {
      var candidate := p.(interval := n, unit := Month);
      if Boundary(z, candidate, 1) == Some(exclusive) {
        q := candidate;
        break;
      }
    }
    if q.interval % 12 == 0 && q.interval > 0 {
      WholeYears(z, p, q.interval);
      q := q.(interval := q.interval / 12, unit := Year);
    }
    EndIsUnused(z, q);
    q := q.(end := None);
    if q.interval == 0 {
      q := q.(interval := SpanDays(days), unit := Day, legacy := true);
      FirstDays(z, q);
      SameStart(z, Ordinal(p.begin) + q.interval, Ordinal(p.end.value) + 1);
    } else {
      FirstRenewal(q);
      FirstDays(z, q);
      SameStart(z, DayAt(q, 1), Ordinal(p.end.value) + 1);
    }
    if !ValidRule(z, q) {
      return None;
    }
    return Some(q);
  }

  lemma FirstDays(z: Zone, p: Rule)
    requires Anchored(z, p.begin) && p.interval >= 1
    ensures Boundary(z, p, 1).Some? ==> Boundary(z, p, 1).value == z.start(DayAt(p, 1))
    ensures p.unit == Day ==> Boundary(z, p, 1) == Some(z.start(DayAt(p, 1))) && DayAt(p, 1) == Ordinal(p.begin) + p.interval
  {
    hide Ordinal;
  }

  lemma EndIsUnused(z: Zone, p: Rule)
    requires p.begin.month >= 1
    ensures Boundary(z, p.(end := None), 1) == Boundary(z, p, 1) && DayAt(p.(end := None), 1) == DayAt(p, 1)
  {
    hide MonthStart;
    hide Ordinal;
    hide DaysIn;
    hide Anchored;
  }

  /** Days are told apart by their first instants. */
  lemma SameStart(z: Zone, a: int, b: int)
    requires Proper(z)
    ensures z.start(a) == z.start(b) <==> a == b
  {
    if a < b {
      StartsIncrease(z, a, b);
    } else if b < a {
      StartsIncrease(z, b, a);
    }
  }

  const HOUR := 3_600_000_000_000

  /** A zone whose clocks went forward by an hour on day 750000. */
  function SpringStart(d: int): Time {
    (d - UNIX_DAY) * DAY_NS - (if d > 750_000 then HOUR else 0)
  }

  function SpringDay(t: Time): int {
    (if t < SpringStart(750_001) then t / DAY_NS else (t + HOUR) / DAY_NS) + UNIX_DAY
  }

  lemma SpringDays(t: Time)
    ensures SpringStart(SpringDay(t)) <= t < SpringStart(SpringDay(t) + 1)
  {
  }

  lemma SpanDates()
    ensures ValidDate(Date(1900, 1, 1)) && ValidDate(Date(2192, 4, 10))
    ensures Ordinal(Date(1900, 1, 1)) == 693_961 && Ordinal(Date(2192, 4, 10)) == 800_712
  {
  }

  /**
   A period of 106752 days that is accepted in that zone. By the contract of the migration its rule
   does not renew at the old end.
   */
  lemma LongSpan() returns (z: Zone, p: Rule)
    ensures Proper(z) && p.interval == 0 && p.end.Some? && OldBounds(z, p.begin, p.end.value) && EffectiveFits(p)
    ensures Ordinal(p.end.value) + 1 - Ordinal(p.begin) == LONGEST_DAYS + 1
  {
    z := Zone(SpringStart, SpringDay, t => 0);
    p := Rule("local", Date(1900, 1, 1), 0, Unknown(""), 0, 0, false, Some(Date(2192, 4, 10)));
    SpanDates();
    hide Ordinal;
    hide SpringDay;
    assert forall d: int :: SpringStart(d) < SpringStart(d + 1);
    forall t: Time
      ensures SpringStart(SpringDay(t)) <= t < SpringStart(SpringDay(t) + 1)
    {
      SpringDays(t);
    }
  }
}
