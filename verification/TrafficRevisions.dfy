/**
 The revisions of a machine's renewal rule. Editing the rule closes the one in force at that instant
 and opens the next; the periods of all revisions then cut time into stretches that do not overlap,
 so a sampled interval is counted in one view at most.
 */
module TrafficRevisions {
  import opened Wrappers
  import opened Calendar
  import opened TrafficPeriods

  const MAX_MEMBERS := 128

  datatype Outcome = Unchanged | Changed | InvalidRule | UnknownMachine | ClockNotPast | TooMany

  /** Where the last closed revision of a member ends; zero when there is none. */
  function LastEnd(history: seq<Rule>, member: string): Time {
    if history == [] then 0
    else
      var p := history[|history| - 1];
      if p.member == member then p.until else LastEnd(history[..|history| - 1], member)
  }

  predicate HistoryChains(z: Zone, history: seq<Rule>) {
    forall i :: 0 <= i < |history| ==>
      history[i].until != 0 && ValidRule(z, history[i]) && LastEnd(history[..i], history[i].member) == history[i].from
  }

  predicate Listed(rules: seq<Rule>, member: string) {
    exists i :: 0 <= i < |rules| && rules[i].member == member
  }

  predicate DistinctMembers(rules: seq<Rule>) {
    forall i, j :: 0 <= i < j < |rules| ==> rules[i].member != rules[j].member
  }

  /** The rule in force continues where the last closed revision ends. */
  predicate Continues(z: Zone, machines: set<string>, history: seq<Rule>, p: Rule) {
    p.member in machines && p.until == 0 && LastEnd(history, p.member) == p.from && ValidRule(z, p)
  }

  predicate AllContinue(z: Zone, machines: set<string>, current: seq<Rule>, history: seq<Rule>) {
    forall i :: 0 <= i < |current| ==> Continues(z, machines, history, current[i])
  }

  predicate AllListed(current: seq<Rule>, history: seq<Rule>) {
    forall i :: 0 <= i < |history| ==> Listed(current, history[i].member)
  }

  /** What a state is checked for whenever it is loaded or saved. */
  predicate Validated(z: Zone, machines: set<string>, current: seq<Rule>, history: seq<Rule>) {
    && |current| <= MAX_MEMBERS && HistoryChains(z, history) && DistinctMembers(current)
    && AllContinue(z, machines, current, history) && AllListed(current, history)
  }

  class RuleBook {
    var machines: set<string>
    var current: seq<Rule>
    var history: seq<Rule>

    ghost predicate Valid(z: Zone)
      reads this
    {
      Validated(z, machines, current, history)
    }

    /**
     Sets a machine's rule. Every edit of a valid book is valid again, so only an unusable rule, an
     unknown machine, a clock that has not moved past the last edit or too many machines refuse it.
     */
    method SetPeriod(z: Zone, member: string, begin: Date, unit: Unit, interval: nat, now: Time) returns (r: Outcome)
      requires Valid(z) && now > 0
      modifies this
      ensures Valid(z) && machines == old(machines)
      ensures var p := Rule(member, begin, interval, unit, 0, 0, false, None);
              var was := old(InForce(current, member));
              match r
              case InvalidRule => !ValidRule(z, p)
              case UnknownMachine => member !in machines
              case Unchanged => was.Some? && was.value.begin == begin && was.value.interval == interval && was.value.unit == unit
              case ClockNotPast => was.Some? && was.value.from >= now
              case TooMany => was.None? && |old(current)| == MAX_MEMBERS
              case Changed =>
                && InForce(current, member) == Some(p.(from := if was.Some? then now else 0))
                && history == (if was.Some? then old(history) + [was.value.(until := now)] else old(history))
                && (forall m :: m != member ==> InForce(current, m) == old(InForce(current, m)))
      ensures r != Changed ==> current == old(current) && history == old(history)
      ensures var fits := ValidRule(z, Rule(member, begin, interval, unit, 0, 0, false, None));
              var was := old(InForce(current, member));
              && (!fits ==> r == InvalidRule)
              && (fits && member !in machines ==> r == UnknownMachine)
              && (fits && member in machines && was.Some? ==>
                    var same := was.value.begin == begin && was.value.interval == interval && was.value.unit == unit;
                    r == if same then Unchanged else if was.value.from >= now then ClockNotPast else Changed)
              && (fits && member in machines && was.None? ==> r == if |old(current)| == MAX_MEMBERS then TooMany else Changed)
    {
      hide ValidRule;
      hide InForce;
      hide HistoryChains;
      hide AllContinue;
      hide AllListed;
      var p := Rule(member, begin, interval, unit, 0, 0, false, None);
      if !ValidRule(z, p) {
        return InvalidRule;
      }
      if member !in machines {
        return UnknownMachine;
      }
      for i := 0 to |current|
        invariant current == old(current) && history == old(history) && machines == old(machines)
        invariant forall j :: 0 <= j < i ==> current[j].member != member
      {
        if current[i].member == member {
          var was := current[i];
          InForceIs(current, i);
          if was.begin == begin && was.interval == interval && was.unit == unit {
            return Unchanged;
          }
          if was.from >= now {
            return ClockNotPast;
          }
          EditIsValid(z, machines, current, history, i, p, now);
          history := history + [was.(until := now)];
          current := current[i := p.(from := now)];
          return Changed;
        }
      }
      NotInForce(current, member);
      if |current| == MAX_MEMBERS {
        return TooMany;
      }
      FirstIsValid(z, machines, current, history, p);
      current := current + [p];
      return Changed;
    }
  }

  /** The rule in force for a member. */
  function InForce(current: seq<Rule>, member: string): Option<Rule> {
    if current == [] then None
    else if current[|current| - 1].member == member then Some(current[|current| - 1])
    else InForce(current[..|current| - 1], member)
  }

  lemma {:induction false} InForceIs(current: seq<Rule>, i: nat)
    requires DistinctMembers(current) && i < |current|
    ensures InForce(current, current[i].member) == Some(current[i])
    decreases |current|
  {
    if i < |current| - 1 {
      InForceIs(current[..|current| - 1], i);
    }
  }

  lemma {:induction false} NotInForce(current: seq<Rule>, member: string)
    requires forall i :: 0 <= i < |current| ==> current[i].member != member
    ensures InForce(current, member) == None
    decreases |current|
  {
    if current != [] {
      NotInForce(current[..|current| - 1], member);
    }
  }

  lemma {:induction false} InForceElsewhere(current: seq<Rule>, i: nat, p: Rule, m: string)
    requires i < |current| && p.member == current[i].member && m != p.member
    ensures InForce(current[i := p], m) == InForce(current, m)
    decreases |current|
  {
    var last := |current| - 1;
    if i < last {
      assert current[i := p][..last] == current[..last][i := p];
      InForceElsewhere(current[..last], i, p, m);
    } else {
      assert current[i := p][..last] == current[..last];
    }
  }

  lemma LastEndNext(history: seq<Rule>, p: Rule, m: string)
    ensures LastEnd(history + [p], m) == if p.member == m then p.until else LastEnd(history, m)
  {
    assert (history + [p])[..|history|] == history;
  }

  /** Closing the rule in force and opening the next keeps the book valid. */
  lemma EditIsValid(z: Zone, machines: set<string>, current: seq<Rule>, history: seq<Rule>, i: nat, p: Rule, now: Time)
    requires Validated(z, machines, current, history) && i < |current| && current[i].from < now && now > 0
    requires ValidRule(z, p) && p.member == current[i].member && p.until == 0
    ensures var current', history' := current[i := p.(from := now)], history + [current[i].(until := now)];
            && Validated(z, machines, current', history')
            && InForce(current', p.member) == Some(p.(from := now))
            && forall m :: m != p.member ==> InForce(current', m) == InForce(current, m)
  {
    hide HistoryChains;
    hide AllContinue;
    hide AllListed;
    hide ValidRule;
    hide InForce;
    hide Listed;
    var q, closed := p.(from := now), current[i].(until := now);
    var current', history' := current[i := q], history + [closed];
    EditHistory(z, machines, current, history, i, now);
    EditCurrent(z, machines, current, history, i, p, now);
    EditListed(current, history, i, q, closed);
    InForceIs(current', i);
    forall m | m != p.member
      ensures InForce(current', m) == InForce(current, m)
    {
      InForceElsewhere(current, i, q, m);
    }
  }

  lemma EditHistory(z: Zone, machines: set<string>, current: seq<Rule>, history: seq<Rule>, i: nat, now: Time)
    requires HistoryChains(z, history) && AllContinue(z, machines, current, history) && i < |current| && current[i].from < now && now > 0
    ensures HistoryChains(z, history + [current[i].(until := now)])
  {
    assert Continues(z, machines, history, current[i]);
    ClosedIsValid(z, current[i], now);
    hide ValidRule;
    hide LastEnd;
    var history' := history + [current[i].(until := now)];
    assert forall k :: 0 <= k <= |history| ==> history'[..k] == history[..k];
    assert history'[..|history|] == history;
  }

  lemma EditCurrent(z: Zone, machines: set<string>, current: seq<Rule>, history: seq<Rule>, i: nat, p: Rule, now: Time)
    requires AllContinue(z, machines, current, history) && DistinctMembers(current) && i < |current| && now > 0
    requires ValidRule(z, p) && p.member == current[i].member && p.until == 0
    ensures AllContinue(z, machines, current[i := p.(from := now)], history + [current[i].(until := now)])
  {
    OpenedIsValid(z, p, now);
    hide ValidRule;
    hide LastEnd;
    var current' := current[i := p.(from := now)];
    forall k | 0 <= k < |current'|
      ensures Continues(z, machines, history + [current[i].(until := now)], current'[k])
    {
      assert Continues(z, machines, history, current[k]) && Continues(z, machines, history, current[i]);
      LastEndNext(history, current[i].(until := now), current'[k].member);
    }
  }

  lemma EditListed(current: seq<Rule>, history: seq<Rule>, i: nat, q: Rule, closed: Rule)
    requires AllListed(current, history) && i < |current| && q.member == current[i].member == closed.member
    ensures AllListed(current[i := q], history + [closed])
  {
    var current' := current[i := q];
    forall k | 0 <= k < |history + [closed]|
      ensures Listed(current', (history + [closed])[k].member)
    {
      if k < |history| {
        assert Listed(current, history[k].member);
        var j :| 0 <= j < |current| && current[j].member == history[k].member;
        assert current'[j].member == history[k].member;
      } else {
        assert current'[i].member == closed.member;
      }
    }
  }

  lemma ClosedIsValid(z: Zone, p: Rule, now: Time)
    requires ValidRule(z, p) && p.from < now && now > 0
    ensures ValidRule(z, p.(until := now))
  {
  }

  lemma OpenedIsValid(z: Zone, p: Rule, now: Time)
    requires ValidRule(z, p) && p.until == 0 && now > 0
    ensures ValidRule(z, p.(from := now))
  {
  }

  lemma FirstIsValid(z: Zone, machines: set<string>, current: seq<Rule>, history: seq<Rule>, p: Rule)
    requires Validated(z, machines, current, history) && |current| < MAX_MEMBERS
    requires ValidRule(z, p) && p.member in machines && p.from == 0 && p.until == 0
    requires forall i :: 0 <= i < |current| ==> current[i].member != p.member
    ensures Validated(z, machines, current + [p], history)
    ensures InForce(current + [p], p.member) == Some(p)
    ensures forall m :: m != p.member ==> InForce(current + [p], m) == InForce(current, m)
  {
    hide ValidRule;
    hide HistoryChains;
    hide LastEnd;
    assert (current + [p])[..|current|] == current;
    forall k | 0 <= k < |history|
      ensures Listed(current + [p], history[k].member) && history[k].member != p.member
    {
      assert Listed(current, history[k].member);
      var j :| 0 <= j < |current| && current[j].member == history[k].member;
      assert (current + [p])[j].member == history[k].member;
    }
    NoEnd(history, p.member);
    assert Continues(z, machines, history, p);
  }

  lemma {:induction false} NoEnd(history: seq<Rule>, member: string)
    requires forall i :: 0 <= i < |history| ==> history[i].member != member
    ensures LastEnd(history, member) == 0
  {
    if history != [] {
      NoEnd(history[..|history| - 1], member);
    }
  }

  // ------------------------------------------------------------------------------------------
  // Revisions tile time
  // ------------------------------------------------------------------------------------------

  function ClosedRevisions(history: seq<Rule>, member: string): seq<Rule> {
    if history == [] then []
    else
      var front, p := ClosedRevisions(history[..|history| - 1], member), history[|history| - 1];
      if p.member == member then front + [p] else front
  }

  /** All revisions of a member, oldest first. */
  function Revisions(current: seq<Rule>, history: seq<Rule>, member: string): seq<Rule> {
    ClosedRevisions(history, member) + (match InForce(current, member) case Some(p) => [p] case None => [])
  }

  /** The revisions follow each other without gap or overlap, from zero to open-ended. */
  predicate Contiguous(revs: seq<Rule>) {
    && revs != [] && revs[0].from == 0 && revs[|revs| - 1].until == 0
    && forall i :: 0 <= i < |revs| - 1 ==> revs[i].from < revs[i].until == revs[i + 1].from
  }

  /** Closed revisions chain from zero up to the last end. */
  predicate Chained(revs: seq<Rule>, end: Time) {
    && (revs == [] ==> end == 0)
    && (revs != [] ==> revs[0].from == 0 && revs[|revs| - 1].until == end && revs[|revs| - 1].from < end)
    && forall i :: 0 <= i < |revs| - 1 ==> revs[i].from < revs[i].until == revs[i + 1].from
  }

  lemma {:induction false} ClosedChain(z: Zone, history: seq<Rule>, member: string)
    requires HistoryChains(z, history)
    ensures Chained(ClosedRevisions(history, member), LastEnd(history, member))
  {
    hide Anchored;
    hide Boundary;
    if history != [] {
      var front := history[..|history| - 1];
      assert forall i :: 0 <= i < |front| ==> front[..i] == history[..i];
      ClosedChain(z, front, member);
    }
  }

  /** In a valid book the revisions of every machine with a rule run from zero to open-ended. */
  lemma RevisionsAreContiguous(z: Zone, machines: set<string>, current: seq<Rule>, history: seq<Rule>, i: nat)
    requires Validated(z, machines, current, history) && i < |current|
    ensures Contiguous(Revisions(current, history, current[i].member))
  {
    hide ValidRule;
    assert Continues(z, machines, history, current[i]);
    ClosedChain(z, history, current[i].member);
    InForceIs(current, i);
  }

  lemma {:induction false} LaterRevision(revs: seq<Rule>, a: nat, b: nat)
    requires Contiguous(revs) && a < b < |revs|
    ensures 0 < revs[a].until <= revs[b].from
    decreases b
  {
    if a == 0 {
      assert revs[0].from < revs[0].until;
    } else {
      LaterRevision(revs, a - 1, a);
    }
    if a < b - 1 {
      LaterRevision(revs, a, b - 1);
    }
  }

  // ------------------------------------------------------------------------------------------
  // Windows
  // ------------------------------------------------------------------------------------------

  datatype Window = Window(lo: Time, hi: Time)

  /** The part of a period in which its revision was in force. */
  function WindowOf(z: Zone, p: Rule, index: nat): Window
    requires Boundary(z, p, index).Some? && Boundary(z, p, index + 1).Some?
  {
    var start, end := Boundary(z, p, index).value, Boundary(z, p, index + 1).value;
    Window(if p.from > 0 && p.from > start then p.from else start, if p.until > 0 && p.until < end then p.until else end)
  }

  datatype Period = Period(revision: nat, index: nat)

  predicate Viewable(z: Zone, revs: seq<Rule>, v: Period) {
    v.revision < |revs| && Boundary(z, revs[v.revision], v.index).Some? && Boundary(z, revs[v.revision], v.index + 1).Some?
  }

  function WindowAt(z: Zone, revs: seq<Rule>, v: Period): Window
    requires Viewable(z, revs, v)
  {
    WindowOf(z, revs[v.revision], v.index)
  }

  /** The windows of two different periods, of one revision or of two, do not overlap. */
  lemma WindowsDisjoint(z: Zone, revs: seq<Rule>, v: Period, w: Period)
    requires Proper(z) && Contiguous(revs) && Viewable(z, revs, v) && Viewable(z, revs, w) && v != w
    ensures WindowAt(z, revs, v).hi <= WindowAt(z, revs, w).lo || WindowAt(z, revs, w).hi <= WindowAt(z, revs, v).lo
  {
    hide Boundary;
    hide Contiguous;
    hide Proper;
    if v.revision < w.revision {
      LaterRevision(revs, v.revision, w.revision);
    } else if w.revision < v.revision {
      LaterRevision(revs, w.revision, v.revision);
    } else if v.index < w.index {
      AtOrAfter(z, revs[v.revision], v.index + 1, w.index);
    } else {
      AtOrAfter(z, revs[v.revision], w.index + 1, v.index);
    }
  }

  lemma AtOrAfter(z: Zone, p: Rule, i: nat, j: nat)
    requires Proper(z) && i <= j && Boundary(z, p, i).Some? && Boundary(z, p, j).Some?
    ensures Boundary(z, p, i).value <= Boundary(z, p, j).value
  {
    if i < j {
      BoundariesIncrease(z, p, i, j);
    }
  }

  /** A stored sample: the bytes between two readings. */
  datatype Interval = Interval(start: Time, end: Time, up: nat, down: nat)

  /** An instant as a number of nanoseconds in 64 bits. */
  function Nanos(t: Time): (n: int)
    ensures InRange(n) && (InRange(t) ==> n == t)
  {
    (t - MIN_NS) % 0x1_0000_0000_0000_0000 + MIN_NS
  }

  /** The query of a view: whole intervals inside the window. The end is capped, but the start wraps around. */
  predicate Counted(w: Window, x: Interval) {
    w.lo < w.hi && x.start >= Nanos(w.lo) && x.end <= (if w.hi < MAX_NS then w.hi else MAX_NS)
  }

  predicate Stored(x: Interval) {
    InRange(x.start) && InRange(x.end) && x.start < x.end
  }

  /** The window holds the instants of the period at which the revision was in force. */
  lemma WindowHolds(z: Zone, p: Rule, index: nat, t: Time)
    requires Boundary(z, p, index).Some? && Boundary(z, p, index + 1).Some?
    ensures var w := WindowOf(z, p, index);
            w.lo <= t < w.hi <==> In(z, p, t, index) && (p.from > 0 ==> t >= p.from) && (p.until > 0 ==> t < p.until)
  {
    hide Boundary;
  }

  /**
   A view that starts in range counts a stored interval exactly if its first and its last instant are in
   the period and it lies in the time the revision was in force.
   */
  lemma CountedExactly(z: Zone, p: Rule, index: nat, x: Interval)
    requires Boundary(z, p, index).Some? && Boundary(z, p, index + 1).Some?
    requires InRange(WindowOf(z, p, index).lo) && InRange(x.start) && InRange(x.end) && x.start < x.end
    ensures Counted(WindowOf(z, p, index), x) <==>
            && In(z, p, x.start, index) && In(z, p, x.end - 1, index)
            && (p.from > 0 ==> x.start >= p.from) && (p.until > 0 ==> x.end <= p.until)
  {
    hide Boundary;
    WindowHolds(z, p, index, x.start);
    WindowHolds(z, p, index, x.end - 1);
  }

  /** A window counts nothing but what lies inside exactly if its start is in the range of the clock (or wraps to its very end). */
  lemma CountsOnlyInside(w: Window)
    requires MIN_NS <= w.lo < w.hi
    ensures (forall x :: Stored(x) && Counted(w, x) ==> w.lo <= x.start && x.end <= w.hi) <==> w.lo <= MAX_NS || Nanos(w.lo) == MAX_NS
  {
    hide Nanos;
    if w.lo > MAX_NS && Nanos(w.lo) < MAX_NS {
      var x := Interval(Nanos(w.lo), Nanos(w.lo) + 1, 0, 0);
      assert Stored(x) && Counted(w, x);
    }
  }

  /** The periods the program shows begin no later than a period of an instant the clock can tell; their windows start in range. */
  lemma ShownStartsInRange(z: Zone, p: Rule, at: Time, index: nat, k: int)
    requires Proper(z) && In(z, p, at, k) && at <= MAX_NS && p.from <= MAX_NS && index <= k
    ensures Boundary(z, p, index).Some? && Boundary(z, p, index + 1).Some? && InRange(WindowOf(z, p, index).lo)
  {
    hide Proper;
    hide Boundary;
    EarlierComputable(z, p, index + 1, k + 1);
    EarlierComputable(z, p, index, k + 1);
    EarlierComputable(z, p, 0, k + 1);
    NoLater(z, p, index, k);
    NoLater(z, p, 0, index);
    FirstIsAnchor(z, p);
  }

  lemma FirstIsAnchor(z: Zone, p: Rule)
    requires Boundary(z, p, 0).Some?
    ensures InRange(Boundary(z, p, 0).value)
  {
    hide MonthStart;
    hide DaysIn;
    assert MonthAt(p, 0) == MonthIndex(p.begin);
    assert DayAt(p, 0) == Ordinal(p.begin);
  }

  lemma NoLater(z: Zone, p: Rule, i: nat, j: nat)
    requires Proper(z) && i <= j && Boundary(z, p, i).Some? && Boundary(z, p, j).Some?
    ensures Boundary(z, p, i).value <= Boundary(z, p, j).value
  {
    hide Boundary;
    AtOrAfter(z, p, i, j);
  }

  predicate StartsInRange(z: Zone, revs: seq<Rule>, v: Period)
    requires Viewable(z, revs, v)
  {
    InRange(WindowAt(z, revs, v).lo)
  }

  function Bytes(x: Interval, upload: bool): nat {
    if upload then x.up else x.down
  }

  function ViewTotal(rows: seq<Interval>, w: Window, upload: bool): nat {
    if rows == [] then 0
    else ViewTotal(rows[..|rows| - 1], w, upload) + if Counted(w, rows[|rows| - 1]) then Bytes(rows[|rows| - 1], upload) else 0
  }

  function StoredTotal(rows: seq<Interval>, upload: bool): nat {
    if rows == [] then 0 else StoredTotal(rows[..|rows| - 1], upload) + Bytes(rows[|rows| - 1], upload)
  }

  predicate AllViewable(z: Zone, revs: seq<Rule>, views: seq<Period>) {
    forall i :: 0 <= i < |views| ==> Viewable(z, revs, views[i]) && StartsInRange(z, revs, views[i])
  }

  function ViewsTotal(z: Zone, revs: seq<Rule>, views: seq<Period>, rows: seq<Interval>, upload: bool): nat
    requires AllViewable(z, revs, views)
  {
    if views == [] then 0
    else ViewsTotal(z, revs, views[..|views| - 1], rows, upload) + ViewTotal(rows, WindowAt(z, revs, views[|views| - 1]), upload)
  }

  predicate DistinctViews(views: seq<Period>) {
    forall i, j :: 0 <= i < j < |views| ==> views[i] != views[j]
  }

  /** A sampled interval is counted in one view at most. */
  lemma CountedOnce(z: Zone, revs: seq<Rule>, v: Period, w: Period, x: Interval)
    requires Proper(z) && Contiguous(revs) && Viewable(z, revs, v) && Viewable(z, revs, w) && x.start < x.end
    requires StartsInRange(z, revs, v) && StartsInRange(z, revs, w)
    requires Counted(WindowAt(z, revs, v), x) && Counted(WindowAt(z, revs, w), x)
    ensures v == w
  {
    hide Viewable;
    hide WindowAt;
    if v != w {
      WindowsDisjoint(z, revs, v, w);
      assert false;
    }
  }

  /** What the views count of a single interval. */
  function ShareOf(z: Zone, revs: seq<Rule>, views: seq<Period>, x: Interval, upload: bool): nat
    requires AllViewable(z, revs, views)
  {
    if views == [] then 0
    else
      ShareOf(z, revs, views[..|views| - 1], x, upload)
      + if Counted(WindowAt(z, revs, views[|views| - 1]), x) then Bytes(x, upload) else 0
  }

  lemma {:induction false} ShareIsWhole(z: Zone, revs: seq<Rule>, views: seq<Period>, x: Interval, upload: bool)
    requires Proper(z) && Contiguous(revs) && AllViewable(z, revs, views) && DistinctViews(views) && x.start < x.end
    ensures ShareOf(z, revs, views, x, upload) <= Bytes(x, upload)
    ensures (forall i :: 0 <= i < |views| ==> !Counted(WindowAt(z, revs, views[i]), x)) ==> ShareOf(z, revs, views, x, upload) == 0
  {
    hide WindowAt;
    hide Viewable;
    hide Counted;
    hide Contiguous;
    hide Proper;
    if views != [] {
      var last := |views| - 1;
      ShareIsWhole(z, revs, views[..last], x, upload);
      if Counted(WindowAt(z, revs, views[last]), x) {
        forall i | 0 <= i < last
          ensures !Counted(WindowAt(z, revs, views[..last][i]), x)
        {
          if Counted(WindowAt(z, revs, views[i]), x) {
            CountedOnce(z, revs, views[i], views[last], x);
            assert false;
          }
        }
      }
    }
  }

  /** The views add up row by row. */
  lemma {:induction false} ViewsByRow(z: Zone, revs: seq<Rule>, views: seq<Period>, rows: seq<Interval>, upload: bool)
    requires AllViewable(z, revs, views) && rows != []
    ensures ViewsTotal(z, revs, views, rows, upload)
         == ViewsTotal(z, revs, views, rows[..|rows| - 1], upload) + ShareOf(z, revs, views, rows[|rows| - 1], upload)
    decreases |views|
  {
    hide WindowAt;
    hide Viewable;
    hide Counted;
    if views != [] {
      ViewsByRow(z, revs, views[..|views| - 1], rows, upload);
    }
  }

  lemma {:induction false} NoRowsNoTotal(z: Zone, revs: seq<Rule>, views: seq<Period>, upload: bool)
    requires AllViewable(z, revs, views)
    ensures ViewsTotal(z, revs, views, [], upload) == 0
    decreases |views|
  {
    hide WindowAt;
    hide Viewable;
    if views != [] {
      NoRowsNoTotal(z, revs, views[..|views| - 1], upload);
    }
  }

  /** However many different periods are viewed, together they never show more than was stored. */
  lemma {:induction false} ViewsNeverExceedStored(z: Zone, revs: seq<Rule>, views: seq<Period>, rows: seq<Interval>, upload: bool)
    requires Proper(z) && Contiguous(revs) && AllViewable(z, revs, views) && DistinctViews(views)
    requires forall i :: 0 <= i < |rows| ==> rows[i].start < rows[i].end
    ensures ViewsTotal(z, revs, views, rows, upload) <= StoredTotal(rows, upload)
    decreases |rows|
  {
    hide WindowAt;
    hide Viewable;
    hide Contiguous;
    hide Proper;
    if rows == [] {
      NoRowsNoTotal(z, revs, views, upload);
    } else {
      ViewsByRow(z, revs, views, rows, upload);
      ShareIsWhole(z, revs, views, rows[|rows| - 1], upload);
      ViewsNeverExceedStored(z, revs, views, rows[..|rows| - 1], upload);
    }
  }

  /** The interval lies in one of the viewed periods, while its revision was in force. */
  ghost predicate LiesIn(z: Zone, revs: seq<Rule>, views: seq<Period>, x: Interval)
    requires AllViewable(z, revs, views)
  {
    exists i :: 0 <= i < |views| && Within(z, revs[views[i].revision], views[i].index, x)
  }

  ghost predicate Within(z: Zone, p: Rule, index: nat, x: Interval) {
    && In(z, p, x.start, index) && In(z, p, x.end - 1, index)
    && (p.from > 0 ==> x.start >= p.from) && (p.until > 0 ==> x.end <= p.until)
  }

  lemma {:induction false} ShareIsAll(z: Zone, revs: seq<Rule>, views: seq<Period>, x: Interval, upload: bool)
    requires Proper(z) && Contiguous(revs) && AllViewable(z, revs, views) && DistinctViews(views)
    requires InRange(x.start) && InRange(x.end) && x.start < x.end
    ensures ShareOf(z, revs, views, x, upload) == if LiesIn(z, revs, views, x) then Bytes(x, upload) else 0
  {
    hide Contiguous;
    hide Proper;
    hide WindowAt;
    hide Viewable;
    if views != [] {
      var last := |views| - 1;
      ShareIsAll(z, revs, views[..last], x, upload);
      LastWithin(z, revs, views, x);
      LiesInNext(z, revs, views, x);
      if Counted(WindowAt(z, revs, views[last]), x) {
        OnlyLast(z, revs, views, x, upload);
      }
    }
    hide Counted;
    hide LiesIn;
    hide Within;
  }

  lemma LastWithin(z: Zone, revs: seq<Rule>, views: seq<Period>, x: Interval)
    requires AllViewable(z, revs, views) && views != [] && InRange(x.start) && InRange(x.end) && x.start < x.end
    ensures var v := views[|views| - 1]; Counted(WindowAt(z, revs, v), x) <==> Within(z, revs[v.revision], v.index, x)
  {
    CountedExactly(z, revs[views[|views| - 1].revision], views[|views| - 1].index, x);
    hide Boundary;
    hide In;
    hide Counted;
  }

  /** What the last view counts no other does. */
  lemma OnlyLast(z: Zone, revs: seq<Rule>, views: seq<Period>, x: Interval, upload: bool)
    requires Proper(z) && Contiguous(revs) && AllViewable(z, revs, views) && DistinctViews(views) && views != [] && x.start < x.end
    requires Counted(WindowAt(z, revs, views[|views| - 1]), x)
    ensures ShareOf(z, revs, views[..|views| - 1], x, upload) == 0
  {
    hide WindowAt;
    hide Viewable;
    hide Counted;
    hide Contiguous;
    hide Proper;
    var last := |views| - 1;
    forall i | 0 <= i < last
      ensures !Counted(WindowAt(z, revs, views[..last][i]), x)
    {
      if Counted(WindowAt(z, revs, views[i]), x) {
        CountedOnce(z, revs, views[i], views[last], x);
        assert false;
      }
    }
    ShareIsWhole(z, revs, views[..last], x, upload);
  }

  lemma LiesInNext(z: Zone, revs: seq<Rule>, views: seq<Period>, x: Interval)
    requires AllViewable(z, revs, views) && views != []
    ensures var last := |views| - 1;
            LiesIn(z, revs, views, x) <==> LiesIn(z, revs, views[..last], x) || Within(z, revs[views[last].revision], views[last].index, x)
  {
    hide Within;
    hide Boundary;
    hide StartsInRange;
    var last := |views| - 1;
    if LiesIn(z, revs, views[..last], x) {
      var i :| 0 <= i < last && Within(z, revs[views[..last][i].revision], views[..last][i].index, x);
      assert views[..last][i] == views[i];
    }
    if LiesIn(z, revs, views, x) {
      var i :| 0 <= i < |views| && Within(z, revs[views[i].revision], views[i].index, x);
      assert i < last ==> views[..last][i] == views[i];
    }
  }

  /** The bytes of the intervals that lie in viewed periods. */
  ghost function LyingTotal(z: Zone, revs: seq<Rule>, views: seq<Period>, rows: seq<Interval>, upload: bool): nat
    requires AllViewable(z, revs, views)
  {
    if rows == [] then 0
    else
      LyingTotal(z, revs, views, rows[..|rows| - 1], upload)
      + if LiesIn(z, revs, views, rows[|rows| - 1]) then Bytes(rows[|rows| - 1], upload) else 0
  }

  /** Different views together show exactly the stored intervals that lie in their periods, each of them once. */
  lemma {:induction false} ViewsShowExactly(z: Zone, revs: seq<Rule>, views: seq<Period>, rows: seq<Interval>, upload: bool)
    requires Proper(z) && Contiguous(revs) && AllViewable(z, revs, views) && DistinctViews(views)
    requires forall x :: x in rows ==> InRange(x.start) && InRange(x.end) && x.start < x.end
    ensures ViewsTotal(z, revs, views, rows, upload) == LyingTotal(z, revs, views, rows, upload)
    decreases |rows|
  {
    hide WindowAt;
    hide Viewable;
    hide Contiguous;
    hide Proper;
    hide LiesIn;
    if rows == [] {
      NoRowsNoTotal(z, revs, views, upload);
    } else {
      ViewsByRow(z, revs, views, rows, upload);
      ShareIsAll(z, revs, views, rows[|rows| - 1], upload);
      ViewsShowExactly(z, revs, views, rows[..|rows| - 1], upload);
    }
  }
}
