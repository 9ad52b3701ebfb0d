/**
 Sampling a machine's interface counters into intervals, on the machine itself and on the master
 that polls it.
 */
module TrafficSamples {
  import opened Wrappers
  import opened Calendar
  import opened TrafficPeriods
  import opened TrafficRevisions

  const SKEW := 300_000_000_000

  /** Rows of one member, oldest first: each has a positive length and starts no earlier than the one before ends. */
  predicate Disjoint(rows: seq<Interval>) {
    && (forall i :: 0 <= i < |rows| ==> rows[i].start < rows[i].end)
    && (forall i, j :: 0 <= i < j < |rows| ==> rows[i].end <= rows[j].start)
  }

  predicate Before(rows: seq<Interval>, t: Time) {
    forall i :: 0 <= i < |rows| ==> rows[i].end <= t
  }

  lemma StillBefore(rows: seq<Interval>, s: Time, t: Time)
    requires Before(rows, s) && s <= t
    ensures Before(rows, t)
  {
  }

  lemma NothingStored()
    ensures Disjoint([]) && StoredTotal([], true) == 0 && StoredTotal([], false) == 0 && forall t :: Before([], t)
  {
  }

  /** A row is inserted unless one with the same end is there. */
  function Insert(rows: seq<Interval>, x: Interval): seq<Interval> {
    if exists i :: 0 <= i < |rows| && rows[i].end == x.end then rows else rows + [x]
  }

  lemma InsertLater(rows: seq<Interval>, x: Interval, upload: bool)
    requires Disjoint(rows) && Before(rows, x.start) && x.start < x.end
    ensures Insert(rows, x) == rows + [x] && Disjoint(Insert(rows, x)) && Before(Insert(rows, x), x.end)
    ensures StoredTotal(Insert(rows, x), upload) == StoredTotal(rows, upload) + Bytes(x, upload)
  {
    assert (rows + [x])[..|rows|] == rows;
  }

  // ------------------------------------------------------------------------------------------
  // On the machine
  // ------------------------------------------------------------------------------------------

  /** The last sample: raw counters as read and the cumulative ones kept across resets. */
  datatype Baseline = Baseline(epoch: string, interfaces: string, at: Time, rawRx: nat, rawTx: nat, rx: nat, tx: nat)

  datatype Counters = Counters(interfaces: string, rx: nat, tx: nat)

  /** A new interface set or a smaller counter starts over. */
  predicate Restarted(b: Baseline, c: Counters) {
    c.interfaces != b.interfaces || c.rx < b.rawRx || c.tx < b.rawTx
  }

  /** The baseline after a sample; a sample that would leave the range of the counters changes nothing. */
  function Sampled(b: Option<Baseline>, at: Time, c: Counters, newEpoch: string): Option<Baseline> {
    if b.None? then Some(Baseline(newEpoch, c.interfaces, at, c.rx, c.tx, 0, 0))
    else
      var x := b.value;
      if at <= x.at then b
      else if Restarted(x, c) then Some(Baseline(newEpoch, c.interfaces, at, c.rx, c.tx, x.rx, x.tx))
      else if x.tx + c.tx - x.rawTx > MAX_NS || x.rx + c.rx - x.rawRx > MAX_NS then b
      else Some(Baseline(x.epoch, c.interfaces, at, c.rx, c.tx, x.rx + c.rx - x.rawRx, x.tx + c.tx - x.rawTx))
  }

  /** What a machine answers when it is polled. */
  function AnswerOf(baseline: Option<Baseline>): Option<Reading> {
    match baseline
    case None => None
    case Some(b) => Some(Reading(b.epoch, b.at, b.tx, b.rx))
  }

  class Meter {
    var baseline: Option<Baseline>
    var rows: seq<Interval>

    /** The intervals add up to the cumulative counters, and do not overlap. */
    ghost predicate Valid()
      reads this
    {
      && Disjoint(rows)
      && StoredTotal(rows, true) == (if baseline.Some? then baseline.value.tx else 0)
      && StoredTotal(rows, false) == (if baseline.Some? then baseline.value.rx else 0)
      && (baseline.Some? ==> Before(rows, baseline.value.at)) && (baseline.None? ==> rows == [])
    }

    constructor ()
      ensures Valid() && baseline == None && rows == []
    {
      baseline, rows := None, [];
    }

    /**
     Takes a sample. Within an epoch every byte the counters moved by goes into one interval; a
     restart leaves a gap, and a clock that has not moved on leaves everything.
     */
    method Sample(at: Time, c: Counters, newEpoch: string) returns (ok: bool)
      requires Valid()
      modifies this
      ensures Valid()
      ensures baseline == Sampled(old(baseline), at, c, newEpoch)
      ensures old(baseline).None? ==> ok && rows == []
      ensures old(baseline).Some? ==>
                var b := old(baseline).value;
                if at <= b.at || Restarted(b, c) then ok && rows == old(rows)
                else if b.tx + c.tx - b.rawTx > MAX_NS || b.rx + c.rx - b.rawRx > MAX_NS then !ok && rows == old(rows)
                else ok && rows == old(rows) + [Interval(b.at, at, c.tx - b.rawTx, c.rx - b.rawRx)]
    {
      hide Disjoint;
      hide Before;
      hide StoredTotal;
      hide Insert;
      NothingStored();
      if baseline.Some? && at <= baseline.value.at {
        return true;
      }
      var epoch, cumRx, cumTx := newEpoch, 0, 0;
      if baseline.Some? {
        cumRx, cumTx := baseline.value.rx, baseline.value.tx;
      }
      if baseline.Some? {
        StillBefore(rows, baseline.value.at, at);
      }
      var reset := baseline.None? || Restarted(baseline.value, c);
      if !reset {
        epoch := baseline.value.epoch;
        var up, down := c.tx - baseline.value.rawTx, c.rx - baseline.value.rawRx;
        if up > MAX_NS - cumTx || down > MAX_NS - cumRx {
          return false;
        }
        cumTx := cumTx + up;
        cumRx := cumRx + down;
        InsertLater(rows, Interval(baseline.value.at, at, up, down), true);
        InsertLater(rows, Interval(baseline.value.at, at, up, down), false);
        rows := Insert(rows, Interval(baseline.value.at, at, up, down));
      }
      baseline := Some(Baseline(epoch, c.interfaces, at, c.rx, c.tx, cumRx, cumTx));
      return true;
    }

    function Answer(): Option<Reading>
      reads this
    {
      AnswerOf(baseline)
    }
  }

  // ------------------------------------------------------------------------------------------
  // On the master
  // ------------------------------------------------------------------------------------------

  datatype Reading = Reading(epoch: string, at: Time, up: int, down: int)

  /** One member on the master: the last accepted reading and its intervals. */
  datatype Remote = Remote(last: Option<Reading>, rows: seq<Interval>)

  datatype RemoteError = Malformed | TooFarAhead | Inconsistent

  predicate IsHex(c: char) {
    '0' <= c <= '9' || 'a' <= c <= 'f'
  }

  lemma HexDigits(c: char)
    ensures IsHex(c) <==> c in "0123456789abcdef"
  {
  }

  predicate WellFormed(r: Reading) {
    |r.epoch| == 32 && r.at > 0 && r.up >= 0 && r.down >= 0 && forall i :: 0 <= i < 32 ==> IsHex(r.epoch[i])
  }

  /** The reading continues the stored one: same epoch, later, no counter smaller. */
  predicate Continues(last: Reading, r: Reading) {
    r.epoch == last.epoch && r.at > last.at && r.up >= last.up && r.down >= last.down
  }

  predicate HeldBack(last: Reading, r: Reading) {
    || r == last
    || (r.epoch == last.epoch && (r.up < last.up || r.down < last.down))
    || r.at < last.at
  }

  /** What one well-formed reading does to a member. */
  function Merged(m: Remote, r: Reading): Result<Remote, RemoteError>
    requires WellFormed(r)
  {
    if m.last.None? then Ok(m.(last := Some(r)))
    else
      var last := m.last.value;
      if r == last then Ok(m)
      else if r.at == last.at then Err(Inconsistent)
      else if HeldBack(last, r) then Ok(m)
      else if Continues(last, r) then
        Ok(Remote(Some(r), Insert(m.rows, Interval(last.at, r.at, r.up - last.up, r.down - last.down))))
      else Ok(m.(last := Some(r)))
  }

  class RemoteMeter {
    var last: Option<Reading>
    var rows: seq<Interval>

    constructor ()
      ensures last == None && rows == []
    {
      last, rows := None, [];
    }

    /** Merges one reading; an error leaves the member as it was. */
    method MergeRemote(r: Reading, now: Time) returns (e: Option<RemoteError>)
      modifies this
      ensures e == Some(Malformed) <==>
                !(|r.epoch| == 32 && r.at > 0 && r.up >= 0 && r.down >= 0 && forall i :: 0 <= i < 32 ==> IsHex(r.epoch[i]))
      ensures e == Some(TooFarAhead) <==> WellFormed(r) && r.at > now + 300_000_000_000
      ensures WellFormed(r) && r.at <= now + SKEW ==>
                var m := Merged(old(Remote(last, rows)), r);
                (e.None? <==> m.Ok?) && (m.Err? ==> e == Some(m.error)) && (m.Ok? ==> Remote(last, rows) == m.value)
      ensures e.Some? ==> last == old(last) && rows == old(rows)
    {
      if |r.epoch| != 32 || r.at <= 0 || r.up < 0 || r.down < 0 {
        return Some(Malformed);
      }
      for i := 0 to 32
        invariant forall j :: 0 <= j < i ==> IsHex(r.epoch[j])
      {
        if !IsHex(r.epoch[i]) {
          return Some(Malformed);
        }
      }
      if r.at > now + SKEW {
        return Some(TooFarAhead);
      }
      if last.Some? {
        var b := last.value;
        if b.epoch == r.epoch && r.at == b.at && r.up == b.up && r.down == b.down {
          return None;
        }
        if r.at == b.at {
          return Some(Inconsistent);
        }
        if b.epoch == r.epoch && (r.up < b.up || r.down < b.down) {
          return None;
        }
        if b.epoch == r.epoch && r.at > b.at && r.up >= b.up && r.down >= b.down {
          rows := Insert(rows, Interval(b.at, r.at, r.up - b.up, r.down - b.down));
        } else if r.at < b.at {
          return None;
        }
      }
      last := Some(r);
      return None;
    }
  }

  // ------------------------------------------------------------------------------------------
  // Whole runs
  // ------------------------------------------------------------------------------------------

  /** Polls in the order their answers arrive; a refused one changes nothing. */
  function MergeAll(m: Remote, readings: seq<Reading>): Remote
    requires forall i :: 0 <= i < |readings| ==> WellFormed(readings[i])
  {
    if readings == [] then m
    else
      var front, r := MergeAll(m, readings[..|readings| - 1]), readings[|readings| - 1];
      var next := Merged(front, r);
      if next.Ok? then next.value else front
  }

  function Value(r: Reading, upload: bool): int {
    if upload then r.up else r.down
  }

  /** The stored intervals are apart and end no later than the last accepted reading. */
  predicate Sound(m: Remote) {
    Disjoint(m.rows) && (m.last.None? ==> m.rows == []) && (m.last.Some? ==> Before(m.rows, m.last.value.at))
  }

  lemma MergedIsSound(m: Remote, r: Reading)
    requires Sound(m) && WellFormed(r) && Merged(m, r).Ok?
    ensures Sound(Merged(m, r).value)
  {
    hide Insert;
    hide WellFormed;
    hide StoredTotal;
    hide Disjoint;
    hide Before;
    NothingStored();
    if m.last.Some? && Continues(m.last.value, r) {
      InsertLater(m.rows, Interval(m.last.value.at, r.at, r.up - m.last.value.up, r.down - m.last.value.down), true);
    } else if m.last.Some? && r.at >= m.last.value.at {
      StillBefore(m.rows, m.last.value.at, r.at);
    }
  }

  /**
   What one reading does. The first one, and a later one of another epoch, is where counting starts
   anew; a later one of the same epoch that is not behind stores the interval since the last. An older
   one, one that is behind in the same epoch, and one received before change nothing. Another one of
   the same instant is refused.
   */
  lemma OneReading(m: Remote, r: Reading)
    requires Sound(m) && WellFormed(r)
    ensures var done := Merged(m, r);
            && (m.last.None? ==> done == Ok(Remote(Some(r), m.rows)))
            && (m.last.Some? ==>
                  var was := m.last.value;
                  && (r.at > was.at && r.epoch != was.epoch ==> done == Ok(Remote(Some(r), m.rows)))
                  && (r.at > was.at && r.epoch == was.epoch && r.up >= was.up && r.down >= was.down ==>
                        done == Ok(Remote(Some(r), m.rows + [Interval(was.at, r.at, r.up - was.up, r.down - was.down)])))
                  && (r.at > was.at && r.epoch == was.epoch && (r.up < was.up || r.down < was.down) ==> done == Ok(m))
                  && (r.at < was.at || r == was ==> done == Ok(m))
                  && (r.at == was.at && r != was ==> done == Err(Inconsistent)))
  {
    if m.last.Some? && Continues(m.last.value, r) {
      InsertLater(m.rows, Interval(m.last.value.at, r.at, r.up - m.last.value.up, r.down - m.last.value.down), true);
    }
  }

  /** Whatever the order, repetition or loss of the answers, the intervals never overlap. */
  lemma {:induction false} RemoteIntervalsNeverOverlap(m: Remote, readings: seq<Reading>)
    requires Sound(m) && forall i :: 0 <= i < |readings| ==> WellFormed(readings[i])
    ensures Sound(MergeAll(m, readings))
  {
    hide Merged;
    hide Sound;
    if readings != [] {
      var front, r := readings[..|readings| - 1], readings[|readings| - 1];
      RemoteIntervalsNeverOverlap(m, front);
      if Merged(MergeAll(m, front), r).Ok? {
        MergedIsSound(MergeAll(m, front), r);
      }
    }
  }

  /** Readings of one machine, at any times, of a database that was not rolled back. */
  predicate OneMachine(readings: seq<Reading>) {
    forall i, j :: 0 <= i < |readings| && 0 <= j < |readings| && readings[i].at <= readings[j].at ==>
      readings[i].up <= readings[j].up && readings[i].down <= readings[j].down
  }

  /** The last accepted reading is one of those received. */
  predicate Received(m: Remote, readings: seq<Reading>) {
    m.last.Some? ==> m.last.value in readings
  }

  lemma MergedTotal(m: Remote, r: Reading, upload: bool)
    requires Sound(m) && WellFormed(r) && Merged(m, r).Ok?
    ensures StoredTotal(Merged(m, r).value.rows, upload)
         == StoredTotal(m.rows, upload)
            + if m.last.Some? && Continues(m.last.value, r) then Value(r, upload) - Value(m.last.value, upload) else 0
  {
    if m.last.Some? && Continues(m.last.value, r) {
      InsertLater(m.rows, Interval(m.last.value.at, r.at, r.up - m.last.value.up, r.down - m.last.value.down), upload);
    }
  }

  /** The counters of the last accepted reading stay ahead of the first by at least what was charged. */
  predicate Covered(m: Remote, first: Reading, upload: bool) {
    m.last.Some? && m.last.value.at >= first.at && StoredTotal(m.rows, upload) <= Value(m.last.value, upload) - Value(first, upload)
  }

  lemma MergedIsCovered(m: Remote, r: Reading, first: Reading, all: seq<Reading>, upload: bool)
    requires Sound(m) && Covered(m, first, upload) && WellFormed(r) && OneMachine(all)
    requires Received(m, all) && r in all && Merged(m, r).Ok?
    ensures Covered(Merged(m, r).value, first, upload)
  {
    MergedTotal(m, r, upload);
  }

  /**
   Under reordered, repeated or lost answers and any changes of epoch, what the master charges a
   member is at most the growth of its counters since the first accepted reading.
   */
  lemma {:induction false} ChargedAtMostGrowth(readings: seq<Reading>, n: nat, upload: bool)
    requires 0 < n <= |readings| && OneMachine(readings) && forall i :: 0 <= i < |readings| ==> WellFormed(readings[i])
    ensures var m := MergeAll(Remote(None, []), readings[..n]);
            Sound(m) && Received(m, readings) && Covered(m, readings[0], upload)
  {
    hide Merged;
    hide Sound;
    hide OneMachine;
    hide Covered;
    hide Received;
    var front, r := readings[..n - 1], readings[n - 1];
    assert readings[..n][..n - 1] == front;
    if n == 1 {
      FirstReading(r, readings, upload);
    } else {
      ChargedAtMostGrowth(readings, n - 1, upload);
      var m := MergeAll(Remote(None, []), front);
      if Merged(m, r).Ok? {
        MergedIsSound(m, r);
        MergedIsCovered(m, r, readings[0], readings, upload);
        StaysReceived(m, r, readings);
      }
    }
  }

  lemma FirstReading(r: Reading, readings: seq<Reading>, upload: bool)
    requires WellFormed(r) && r in readings
    ensures var m := Merged(Remote(None, []), r);
            m.Ok? && Sound(m.value) && Received(m.value, readings) && Covered(m.value, r, upload)
  {
  }

  lemma StaysReceived(m: Remote, r: Reading, readings: seq<Reading>)
    requires WellFormed(r) && Received(m, readings) && r in readings && Merged(m, r).Ok?
    ensures Received(Merged(m, r).value, readings)
  {
  }

  /**
   Within one epoch the charge is exactly what the accepted counters grew by, even if a restored
   database answers with smaller counters for a while.
   */
  lemma {:induction false} OneEpochIsExact(readings: seq<Reading>, n: nat, upload: bool)
    requires 0 < n <= |readings| && forall i :: 0 <= i < |readings| ==> WellFormed(readings[i])
    requires forall i :: 0 <= i < |readings| ==> readings[i].epoch == readings[0].epoch
    ensures var m := MergeAll(Remote(None, []), readings[..n]);
            && Sound(m) && m.last.Some? && m.last.value.epoch == readings[0].epoch
            && StoredTotal(m.rows, upload) == Value(m.last.value, upload) - Value(readings[0], upload)
  {
    hide Sound;
    var front, r := readings[..n - 1], readings[n - 1];
    assert readings[..n][..n - 1] == front;
    if n == 1 {
      FirstReading(r, readings, upload);
    } else {
      OneEpochIsExact(readings, n - 1, upload);
      var m := MergeAll(Remote(None, []), front);
      if Merged(m, r).Ok? {
        MergedIsSound(m, r);
        MergedTotal(m, r, upload);
      }
    }
  }

  // ------------------------------------------------------------------------------------------
  // The answers of one machine
  // ------------------------------------------------------------------------------------------

  datatype Taking = Taking(at: Time, counters: Counters, newEpoch: string)

  /** The baseline of a machine after its samples, whatever its clock and its counters did. */
  function BaselineAfter(takings: seq<Taking>): Option<Baseline> {
    if takings == [] then None
    else
      var t := takings[|takings| - 1];
      Sampled(BaselineAfter(takings[..|takings| - 1]), t.at, t.counters, t.newEpoch)
  }

  /** The machine would have given this answer at some time. */
  ghost predicate Answered(takings: seq<Taking>, r: Reading) {
    exists k :: 0 <= k <= |takings| && AnswerOf(BaselineAfter(takings[..k])) == Some(r)
  }

  predicate Later(a: Baseline, b: Baseline) {
    a.at <= b.at && a.rx <= b.rx && a.tx <= b.tx && (a.at == b.at ==> a == b)
  }

  /** Time and cumulative counters of a machine never go back, through restarts and changes of interfaces too. */
  lemma {:induction false} BaselineGrows(takings: seq<Taking>, i: nat, j: nat)
    requires i <= j <= |takings| && BaselineAfter(takings[..i]).Some?
    ensures BaselineAfter(takings[..j]).Some?
    ensures Later(BaselineAfter(takings[..i]).value, BaselineAfter(takings[..j]).value)
  {
    if i < j {
      BaselineGrows(takings, i, j - 1);
      assert takings[..j][..j - 1] == takings[..j - 1];
    }
  }

  /** Whatever answers of one machine arrive, in whatever order: later ones have no smaller counters. */
  lemma AnswersAreOneMachine(takings: seq<Taking>, readings: seq<Reading>)
    requires forall r :: r in readings ==> Answered(takings, r)
    ensures OneMachine(readings)
  {
    hide BaselineAfter;
    forall i, j | 0 <= i < |readings| && 0 <= j < |readings| && readings[i].at <= readings[j].at
      ensures readings[i].up <= readings[j].up && readings[i].down <= readings[j].down
    {
      assert readings[i] in readings && readings[j] in readings;
      var k :| 0 <= k <= |takings| && AnswerOf(BaselineAfter(takings[..k])) == Some(readings[i]);
      var l :| 0 <= l <= |takings| && AnswerOf(BaselineAfter(takings[..l])) == Some(readings[j]);
      if k <= l {
        BaselineGrows(takings, k, l);
      } else {
        BaselineGrows(takings, l, k);
      }
    }
  }

  /**
   So however a machine samples and its answers are reordered, repeated or lost, the master never
   stores more for it than its cumulative counter has grown by since the first accepted answer.
   */
  lemma MachineIsNeverOvercharged(takings: seq<Taking>, readings: seq<Reading>, upload: bool)
    requires readings != [] && forall r :: r in readings ==> Answered(takings, r) && WellFormed(r)
    ensures BaselineAfter(takings).Some?
    ensures var now := AnswerOf(BaselineAfter(takings)).value;
            var m := MergeAll(Remote(None, []), readings);
            Disjoint(m.rows) && StoredTotal(m.rows, upload) <= Value(now, upload) - Value(readings[0], upload)
  {
    AnswersAreOneMachine(takings, readings);
    assert forall i :: 0 <= i < |readings| ==> readings[i] in readings;
    ChargedAtMostGrowth(readings, |readings|, upload);
    assert readings[..|readings|] == readings;
    var last := MergeAll(Remote(None, []), readings).last.value;
    hide BaselineAfter;
    hide MergeAll;
    hide StoredTotal;
    var k :| 0 <= k <= |takings| && AnswerOf(BaselineAfter(takings[..k])) == Some(last);
    BaselineGrows(takings, k, |takings|);
    assert takings[..|takings|] == takings;
  }

  // ------------------------------------------------------------------------------------------
  // Nothing is lost either
  // ------------------------------------------------------------------------------------------

  /** What the counters grew by between readings that follow each other in one epoch. */
  function GrowthWithin(readings: seq<Reading>, upload: bool): int {
    if |readings| < 2 then 0
    else
      var a, b := readings[|readings| - 2], readings[|readings| - 1];
      GrowthWithin(readings[..|readings| - 1], upload) + if a.epoch == b.epoch then Value(b, upload) - Value(a, upload) else 0
  }

  predicate InTime(readings: seq<Reading>) {
    forall i :: 0 < i < |readings| ==> readings[i - 1].at < readings[i].at
  }

  /** Readings that arrive in order are all accepted, and the bytes stored are exactly that growth. */
  lemma {:induction false} InOrderIsExact(readings: seq<Reading>, n: nat, upload: bool)
    requires 0 < n <= |readings| && InTime(readings) && OneMachine(readings) && forall i :: 0 <= i < |readings| ==> WellFormed(readings[i])
    ensures var m := MergeAll(Remote(None, []), readings[..n]);
            Sound(m) && m.last == Some(readings[n - 1]) && StoredTotal(m.rows, upload) == GrowthWithin(readings[..n], upload)
  {
    hide Sound;
    hide Merged;
    hide WellFormed;
    hide StoredTotal;
    assert readings[..n][..n - 1] == readings[..n - 1];
    if n == 1 {
      FirstReading(readings[0], readings, upload);
      NothingStored();
      OneReadingStored(Remote(None, []), readings[0], upload);
    } else {
      InOrderIsExact(readings, n - 1, upload);
      var m := MergeAll(Remote(None, []), readings[..n - 1]);
      OneReadingStored(m, readings[n - 1], upload);
    }
  }

  /** What a reading that is not behind adds. */
  lemma OneReadingStored(m: Remote, r: Reading, upload: bool)
    requires Sound(m) && WellFormed(r) && (m.last.Some? ==> r.at > m.last.value.at && r.up >= m.last.value.up && r.down >= m.last.value.down)
    ensures var done := Merged(m, r);
            && done.Ok? && Sound(done.value) && done.value.last == Some(r)
            && StoredTotal(done.value.rows, upload)
               == StoredTotal(m.rows, upload)
                  + if m.last.Some? && m.last.value.epoch == r.epoch then Value(r, upload) - Value(m.last.value, upload) else 0
  {
    OneReading(m, r);
    MergedIsSound(m, r);
    MergedTotal(m, r, upload);
  }

  /** The counters of a machine can be read on from the sample before: the same interfaces, and none smaller. */
  predicate ReadsOn(a: Counters, b: Counters) {
    a.interfaces == b.interfaces && a.rx <= b.rx && a.tx <= b.tx
  }

  /** What the interface counters moved by between samples that can be read on. */
  function Moved(takings: seq<Taking>, upload: bool): nat {
    if |takings| < 2 then 0
    else
      var a, b := takings[|takings| - 2].counters, takings[|takings| - 1].counters;
      Moved(takings[..|takings| - 1], upload) + if !ReadsOn(a, b) then 0 else if upload then b.tx - a.tx else b.rx - a.rx
  }

  predicate IsEpoch(epoch: string) {
    |epoch| == 32 && forall k :: 0 <= k < 32 ==> IsHex(epoch[k])
  }

  /** A clock that moves on, and epochs that are drawn anew. */
  predicate Spaced(takings: seq<Taking>) {
    && (forall i :: 0 <= i < |takings| ==> takings[i].at > 0 && IsEpoch(takings[i].newEpoch))
    && (forall i :: 0 < i < |takings| ==> takings[i - 1].at < takings[i].at)
    && (forall i, j :: 0 <= i < j < |takings| ==> takings[i].newEpoch != takings[j].newEpoch)
  }

  /** And counters that stay within their range. */
  predicate Orderly(takings: seq<Taking>) {
    Spaced(takings) && Moved(takings, true) <= MAX_NS && Moved(takings, false) <= MAX_NS
  }

  /** What the last sample of an orderly machine is like. */
  lemma LastSample(takings: seq<Taking>)
    requires takings != [] && Orderly(takings)
    ensures var n := |takings|;
            && Orderly(takings[..n - 1]) && Moved(takings, true) <= MAX_NS && Moved(takings, false) <= MAX_NS
            && takings[n - 1].at > 0 && IsEpoch(takings[n - 1].newEpoch)
            && (n > 1 ==> takings[n - 2].at < takings[n - 1].at && takings[..n - 1][n - 2] == takings[n - 2])
            && (forall t :: t in takings[..n - 1] ==> t.newEpoch != takings[n - 1].newEpoch)
  {
    SpacedFront(takings);
    hide Spaced;
  }

  lemma SpacedFront(takings: seq<Taking>)
    requires takings != [] && Spaced(takings)
    ensures var n := |takings|;
            && Spaced(takings[..n - 1])
            && takings[n - 1].at > 0 && IsEpoch(takings[n - 1].newEpoch)
            && (n > 1 ==> takings[n - 2].at < takings[n - 1].at)
            && (forall t :: t in takings[..n - 1] ==> t.newEpoch != takings[n - 1].newEpoch)
  {
    hide IsEpoch;
  }

  /** What one sample makes of the baseline: it goes on from the last one, starts over, or leaves it. */
  lemma OneSample(b: Baseline, at: Time, c: Counters, newEpoch: string)
    ensures var done := Sampled(Some(b), at, c, newEpoch);
            var on := ReadsOn(Counters(b.interfaces, b.rawRx, b.rawTx), c);
            && (at <= b.at ==> done == Some(b))
            && (at > b.at && !on ==> done == Some(Baseline(newEpoch, c.interfaces, at, c.rx, c.tx, b.rx, b.tx)))
            && (at > b.at && on && b.tx + (c.tx - b.rawTx) <= MAX_NS && b.rx + (c.rx - b.rawRx) <= MAX_NS ==>
                  done == Some(Baseline(b.epoch, c.interfaces, at, c.rx, c.tx, b.rx + (c.rx - b.rawRx), b.tx + (c.tx - b.rawTx))))
            && (at > b.at && on && (b.tx + (c.tx - b.rawTx) > MAX_NS || b.rx + (c.rx - b.rawRx) > MAX_NS) ==> done == Some(b))
    ensures Sampled(None, at, c, newEpoch) == Some(Baseline(newEpoch, c.interfaces, at, c.rx, c.tx, 0, 0))
  {
  }

  /** The baseline is the last sample; its cumulative counters are all the machine has counted. */
  ghost predicate Tells(takings: seq<Taking>, b: Baseline)
    requires takings != []
  {
    var t := takings[|takings| - 1];
    && b.at == t.at && Counters(b.interfaces, b.rawRx, b.rawTx) == t.counters
    && b.tx == Moved(takings, true) && b.rx == Moved(takings, false)
    && IsEpoch(b.epoch) && (exists x :: x in takings && b.epoch == x.newEpoch)
  }

  lemma NextTells(takings: seq<Taking>, b: Baseline)
    requires |takings| > 1 && Orderly(takings) && Tells(takings[..|takings| - 1], b)
    ensures var t := takings[|takings| - 1];
            var done := Sampled(Some(b), t.at, t.counters, t.newEpoch);
            && done.Some? && Tells(takings, done.value)
            && (done.value.epoch == b.epoch <==> ReadsOn(takings[|takings| - 2].counters, t.counters))
  {
    var n, t := |takings|, takings[|takings| - 1];
    LastSample(takings);
    hide Orderly;
    OneSample(b, t.at, t.counters, t.newEpoch);
    hide Sampled;
    hide IsEpoch;
    hide Moved;
    var x :| x in takings[..n - 1] && b.epoch == x.newEpoch;
    assert x in takings && t in takings;
    MovedOn(takings);
  }

  lemma MovedOn(takings: seq<Taking>)
    requires |takings| > 1
    ensures var n := |takings|;
            forall upload ::
              Moved(takings, upload) == Moved(takings[..n - 1], upload)
                                        + if !ReadsOn(takings[n - 2].counters, takings[n - 1].counters) then 0
                                          else if upload then takings[n - 1].counters.tx - takings[n - 2].counters.tx
                                          else takings[n - 1].counters.rx - takings[n - 2].counters.rx
  {
  }

  lemma {:induction false} CumulativeIsMoved(takings: seq<Taking>)
    requires takings != [] && Orderly(takings)
    ensures BaselineAfter(takings).Some? && Tells(takings, BaselineAfter(takings).value)
  {
    var n, front := |takings|, takings[..|takings| - 1];
    LastSample(takings);
    hide Orderly;
    if n > 1 {
      CumulativeIsMoved(front);
      NextTells(takings, BaselineAfter(front).value);
      hide Sampled;
      hide Tells;
    } else {
      OneSample(Baseline("", "", 0, 0, 0, 0, 0), takings[0].at, takings[0].counters, takings[0].newEpoch);
      assert front == [] && takings[0] in takings;
    }
  }

  /** What the machine answers after each sample. */
  ghost predicate Answers(takings: seq<Taking>, readings: seq<Reading>) {
    |readings| == |takings| && forall k :: 0 <= k < |takings| ==> AnswersAfter(takings, k, readings[k])
  }

  ghost predicate AnswersAfter(takings: seq<Taking>, k: nat, r: Reading)
    requires k < |takings|
  {
    AnswerOf(BaselineAfter(takings[..k + 1])) == Some(r)
  }

  lemma LastOfAnswers(takings: seq<Taking>, readings: seq<Reading>)
    requires takings != [] && Answers(takings, readings)
    ensures var n := |takings|;
            && AnswerOf(BaselineAfter(takings)) == Some(readings[n - 1])
            && Answers(takings[..n - 1], readings[..n - 1])
            && (n > 1 ==> AnswerOf(BaselineAfter(takings[..n - 1])) == Some(readings[n - 2]))
  {
    hide BaselineAfter;
    var n := |takings|;
    assert takings[..n] == takings;
    assert AnswersAfter(takings, n - 1, readings[n - 1]);
    assert n > 1 ==> takings[..n - 2 + 1] == takings[..n - 1] && AnswersAfter(takings, n - 2, readings[n - 2]);
    var front, before := takings[..n - 1], readings[..n - 1];
    forall k | 0 <= k < |front|
      ensures AnswersAfter(front, k, before[k])
    {
      assert front[..k + 1] == takings[..k + 1] && AnswersAfter(takings, k, readings[k]);
    }
  }

  lemma OneMoreInTime(front: seq<Reading>, r: Reading, upload: bool)
    requires InTime(front) && (forall k :: 0 <= k < |front| ==> WellFormed(front[k]))
    requires WellFormed(r) && (front != [] ==> front[|front| - 1].at < r.at)
    ensures InTime(front + [r]) && forall k :: 0 <= k < |front + [r]| ==> WellFormed((front + [r])[k])
    ensures GrowthWithin(front + [r], upload)
         == GrowthWithin(front, upload)
            + if front != [] && front[|front| - 1].epoch == r.epoch then Value(r, upload) - Value(front[|front| - 1], upload) else 0
  {
    hide WellFormed;
    assert (front + [r])[..|front|] == front;
  }

  /** The answers of an orderly machine: in time, well formed, and what they grow by within epochs is what its counters moved by. */
  lemma {:induction false} AnswersTellAll(takings: seq<Taking>, readings: seq<Reading>, upload: bool)
    requires Orderly(takings) && Answers(takings, readings)
    ensures InTime(readings) && forall k :: 0 <= k < |readings| ==> WellFormed(readings[k])
    ensures GrowthWithin(readings, upload) == Moved(takings, upload)
  {
    var n := |takings|;
    if n > 0 {
      LastSample(takings);
      LastOfAnswers(takings, readings);
      AnswersTellAll(takings[..n - 1], readings[..n - 1], upload);
      LastAnswer(takings);
      OneMoreInTime(readings[..n - 1], readings[n - 1], upload);
      assert readings == readings[..n - 1] + [readings[n - 1]];
      assert n == 1 ==> Moved(takings, upload) == 0;
      hide Orderly;
      hide BaselineAfter;
      hide Sampled;
      hide Moved;
      hide ReadsOn;
      hide WellFormed;
      hide InTime;
      hide GrowthWithin;
      hide Answers;
    }
  }

  /** The last answer: well formed, later than the one before, and of its epoch exactly when the counters could be read on. */
  lemma LastAnswer(takings: seq<Taking>)
    requires takings != [] && Orderly(takings)
    ensures BaselineAfter(takings).Some? && WellFormed(AnswerOf(BaselineAfter(takings)).value)
    ensures var n := |takings|;
            n > 1 ==>
              && BaselineAfter(takings[..n - 1]).Some?
              && var a, b := BaselineAfter(takings[..n - 1]).value, BaselineAfter(takings).value;
                 && a.at < b.at
                 && Moved(takings, true) == Moved(takings[..n - 1], true) + (if a.epoch == b.epoch then b.tx - a.tx else 0)
                 && Moved(takings, false) == Moved(takings[..n - 1], false) + (if a.epoch == b.epoch then b.rx - a.rx else 0)
  {
    var n := |takings|;
    LastSample(takings);
    CumulativeIsMoved(takings);
    if n > 1 {
      CumulativeIsMoved(takings[..n - 1]);
      NextTells(takings, BaselineAfter(takings[..n - 1]).value);
      MovedOn(takings);
    }
    hide Orderly;
    hide Sampled;
    hide Moved;
    hide IsEpoch;
    hide IsHex;
  }

  /**
   A master that gets every answer of a machine in order stores exactly what the machine's interface
   counters moved by: restarts and new interfaces cost the bytes in between, and nothing else is lost.
   */
  lemma EveryByteIsCharged(takings: seq<Taking>, readings: seq<Reading>, upload: bool)
    requires takings != [] && Orderly(takings) && Answers(takings, readings)
    ensures forall k :: 0 <= k < |readings| ==> WellFormed(readings[k])
    ensures StoredTotal(MergeAll(Remote(None, []), readings).rows, upload) == Moved(takings, upload)
  {
    AnswersTellAll(takings, readings, upload);
    assert forall r :: r in readings ==> Answered(takings, r);
    AnswersAreOneMachine(takings, readings);
    InOrderIsExact(readings, |readings|, upload);
    assert readings[..|readings|] == readings;
  }
}
