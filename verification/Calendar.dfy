/**
 Gregorian dates and the local days of a time zone. Months are counted from January of year 0 and
 days from the first of January of year 0; instants are nanoseconds since the Unix epoch.

 A zone is given by the first instant of every local day. A zone that skips a whole calendar day is
 not part of this model.
 */
module Calendar {

  type Time = int

  const DAY_NS := 86_400_000_000_000

  /** 1 January 1970. */
  const UNIX_DAY := 719_528

  datatype Date = Date(year: nat, month: nat, day: nat)

  predicate Leap(year: nat) {
    year % 4 == 0 && (year % 100 != 0 || year % 400 == 0)
  }

  function DaysIn(month: nat): (n: nat)
    ensures 28 <= n <= 31
  {
    var m := month % 12;
    if m == 1 then (if Leap(month / 12) then 29 else 28)
    else if m == 3 || m == 5 || m == 8 || m == 10 then 30
    else 31
  }

  /** Leap years before a year. */
  function Leaps(year: nat): int {
    (year + 3) / 4 - (year + 99) / 100 + (year + 399) / 400
  }

  /** Days of a year before one of its months. */
  function DaysBefore(m: nat, leap: bool): nat
    requires m < 12
  {
    var common := [0, 31, 59, 90, 120, 151, 181, 212, 243, 273, 304, 334][m];
    if leap && m > 1 then common + 1 else common
  }

  /** The first day of a month. */
  function MonthStart(month: nat): int {
    365 * (month / 12) + Leaps(month / 12) + DaysBefore(month % 12, Leap(month / 12))
  }

  lemma LeapStep(year: nat)
    ensures Leaps(year + 1) == Leaps(year) + if Leap(year) then 1 else 0
  {
    FourYears(year);
    Centuries(year);
    FourCenturies(year);
  }

  lemma FourYears(year: nat)
    ensures (year + 4) / 4 == (year + 3) / 4 + if year % 4 == 0 then 1 else 0
  {
  }

  lemma Centuries(year: nat)
    ensures (year + 100) / 100 == (year + 99) / 100 + if year % 100 == 0 then 1 else 0
    ensures year % 100 == 0 ==> year % 4 == 0
  {
    var q, r := year / 100, year % 100;
    Hundreds(q, r);
    if r > 0 {
      Hundreds(q + 1, r - 1);
    } else {
      Hundreds(q, 99);
    }
    Hundreds(q + 1, r);
  }

  lemma Hundreds(q: nat, r: nat)
    requires r < 100
    ensures (100 * q + r) / 100 == q && (100 * q + r) % 100 == r && (100 * q) % 4 == 0
  {
    assert (4 * (25 * q)) % 4 == 0;
  }

  lemma FourCenturies(year: nat)
    ensures (year + 400) / 400 == (year + 399) / 400 + if year % 400 == 0 then 1 else 0
    ensures year % 400 == 0 ==> year % 100 == 0
  {
    var q, r := year / 400, year % 400;
    FourHundreds(q, r);
    if r > 0 {
      FourHundreds(q + 1, r - 1);
    } else {
      FourHundreds(q, 399);
    }
    FourHundreds(q + 1, r);
  }

  lemma FourHundreds(q: nat, r: nat)
    requires r < 400
    ensures (400 * q + r) / 400 == q && (400 * q + r) % 400 == r && (400 * q) % 100 == 0
  {
    Hundreds(4 * q, 0);
  }

  /** Every month ends where the next begins. */
  lemma MonthStep(month: nat)
    ensures MonthStart(month + 1) == MonthStart(month) + DaysIn(month)
  {
    var y, m := month / 12, month % 12;
    assert month == 12 * y + m;
    if m == 11 {
      assert (month + 1) / 12 == y + 1 && (month + 1) % 12 == 0;
      LeapStep(y);
    } else {
      assert (month + 1) / 12 == y && (month + 1) % 12 == m + 1;
    }
  }

  lemma {:induction false} MonthsApart(a: nat, b: nat)
    requires a < b
    ensures MonthStart(a) + DaysIn(a) <= MonthStart(b)
    decreases b
  {
    hide MonthStart;
    hide DaysIn;
    MonthStep(b - 1);
    if a < b - 1 {
      MonthsApart(a, b - 1);
    }
  }

  predicate ValidDate(d: Date) {
    1 <= d.month <= 12 && 1 <= d.day <= DaysIn(12 * d.year + d.month - 1)
  }

  function MonthIndex(d: Date): nat
    requires d.month >= 1
  {
    12 * d.year + d.month - 1
  }

  /** The number of a date. */
  function Ordinal(d: Date): int
    requires d.month >= 1
  {
    MonthStart(MonthIndex(d)) + d.day - 1
  }

  // ------------------------------------------------------------------------------------------
  // Zones
  // ------------------------------------------------------------------------------------------

  /** The first instant of each day, and the day and month of each instant. */
  datatype Zone = Zone(start: int -> Time, day: Time -> int, month: Time -> nat)

  ghost predicate Proper(z: Zone) {
    && (forall d: int :: z.start(d) < z.start(d + 1))
    && (forall t: Time :: z.start(z.day(t)) <= t < z.start(z.day(t) + 1))
  }

  /** Instants have the month of their day. */
  ghost predicate Dated(z: Zone) {
    forall t: Time :: z.day(t) >= 0 ==> MonthStart(z.month(t)) <= z.day(t) < MonthStart(z.month(t) + 1)
  }

  lemma {:induction false} StartsIncrease(z: Zone, a: int, b: int)
    requires Proper(z) && a < b
    ensures z.start(a) < z.start(b)
    decreases b - a
  {
    assert z.start(b - 1) < z.start(b - 1 + 1);
    if a < b - 1 {
      StartsIncrease(z, a, b - 1);
    }
  }

  /** An instant is not before a day exactly when its own day is not. */
  lemma DayReached(z: Zone, d: int, t: Time)
    requires Proper(z)
    ensures z.start(d) <= t <==> d <= z.day(t)
  {
    if d < z.day(t) {
      StartsIncrease(z, d, z.day(t));
    } else if d > z.day(t) + 1 {
      StartsIncrease(z, z.day(t) + 1, d);
    }
  }
}
