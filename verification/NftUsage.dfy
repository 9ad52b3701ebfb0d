/**
 Charging traffic from kernel counters that are rebuilt, lost or reset, and distributing it over the
 nodes and users of a state.
 */
module NftUsage {
  import opened Wrappers

  // ------------------------------------------------------------------------------------------
  // One counter
  // ------------------------------------------------------------------------------------------

  /** What a node was charged in one direction, and the counter value that covers. */
  datatype Account = Account(charged: nat, baseline: nat)

  /** What a sample charges: the growth, or all of a counter that is smaller than before. */
  function Due(previous: int, current: int): int {
    if current - previous < 0 then current else current - previous
  }

  function Sampled(a: Account, current: nat): Account {
    Account(a.charged + Due(a.baseline, current), current)
  }

  /** The value a rebuilt rule starts from. */
  function Seed(live: Option<int>, baseline: int): nat {
    if live.Some? && live.value >= 0 then live.value
    else if baseline > 0 then baseline
    else 0
  }

  /** A rule of the table, or the last value it had before the table was lost. */
  datatype Kernel = Live(value: nat) | Gone(last: nat)

  /** The saved account, the one a running command works on, the kernel, and what was really carried. */
  datatype World = World(durable: Account, memory: Account, kernel: Kernel, carried: nat, lost: nat)

  datatype Step =
    | Traffic(bytes: nat)
    | Sample
    | Save
    | Crash
    | Rebuild(meanwhile: nat)
    | LoseTable
    | ResetCounter

  function Level(k: Kernel): nat {
    match k
    case Live(value) => value
    case Gone(last) => last
  }

  function LiveValue(k: Kernel): Option<int> {
    match k
    case Live(value) => Some(value)
    case Gone(_) => None
  }

  /**
   Rebuilding reads the live value and replaces the table; what passes in between is counted by the
   old table only. Without a table traffic is not counted. `lost` follows what no table knows.
   */
  function Next(w: World, s: Step): World {
    match s
    case Traffic(bytes) =>
      if w.kernel.Live? then w.(kernel := Live(w.kernel.value + bytes), carried := w.carried + bytes)
      else w.(carried := w.carried + bytes, lost := w.lost + bytes)
    case Sample => if w.kernel.Live? then w.(memory := Sampled(w.memory, w.kernel.value)) else w
    case Save => w.(durable := w.memory)
    case Crash => w.(memory := w.durable)
    case Rebuild(meanwhile) =>
      var seed := Seed(LiveValue(w.kernel), w.memory.baseline);
      var before := Level(w.kernel) + meanwhile;
      w.(kernel := Live(seed), carried := w.carried + meanwhile, lost := w.lost + (if before > seed then before - seed else 0))
    case LoseTable => if w.kernel.Live? then w.(kernel := Gone(w.kernel.value)) else w
    case ResetCounter => if w.kernel.Live? then w.(kernel := Live(0)) else w
  }

  function Run(w: World, steps: seq<Step>): World {
    if steps == [] then w else Next(Run(w, steps[..|steps| - 1]), steps[|steps| - 1])
  }

  const START := World(Account(0, 0), Account(0, 0), Gone(0), 0, 0)

  /** Every byte carried is charged, still in the kernel above the baseline, or lost with a table. */
  predicate Conserved(w: World) {
    && w.durable.baseline <= w.memory.baseline <= Level(w.kernel)
    && w.durable.charged - w.durable.baseline == w.memory.charged - w.memory.baseline
    && w.memory.charged + (Level(w.kernel) - w.memory.baseline) + w.lost == w.carried
  }

  lemma NextConserves(w: World, s: Step)
    requires Conserved(w) && s != ResetCounter
    ensures Conserved(Next(w, s))
  {
  }

  lemma {:induction false} RunConserves(steps: seq<Step>)
    requires ResetCounter !in steps
    ensures Conserved(Run(START, steps))
  {
    hide Next;
    hide Conserved;
    if steps == [] {
      StartIsConserved();
    } else {
      RunConserves(steps[..|steps| - 1]);
      NextConserves(Run(START, steps[..|steps| - 1]), steps[|steps| - 1]);
    }
  }

  lemma StartIsConserved()
    ensures Conserved(START)
  {
  }

  /**
   Over any run of traffic, samples, saves, crashes before a save, rebuilds and table losses, what is
   charged in the saved state plus what the kernel counts beyond its baseline plus what was lost with
   tables is what was carried.
   */
  lemma BytesAreConserved(steps: seq<Step>)
    requires ResetCounter !in steps
    ensures var w := Run(START, steps);
            w.durable.baseline <= Level(w.kernel) && w.durable.charged + (Level(w.kernel) - w.durable.baseline) + w.lost == w.carried
  {
    hide Run;
    RunConserves(steps);
  }

  /** Two samples charge at least what one would have. */
  lemma DueTriangle(a: nat, b: nat, c: nat)
    ensures Due(a, c) <= Due(a, b) + Due(b, c)
  {
  }

  /** Neither account, were it sampled now, would be charged more than was carried. */
  predicate NeverOver(w: World) {
    && w.durable.charged + Due(w.durable.baseline, w.memory.baseline) <= w.memory.charged
    && w.memory.charged + (if w.kernel.Live? then Due(w.memory.baseline, w.kernel.value) else 0) <= w.carried
  }

  lemma NextNeverOver(w: World, s: Step)
    requires NeverOver(w)
    ensures NeverOver(Next(w, s))
  {
    var level := if w.kernel.Live? then w.kernel.value else w.memory.baseline;
    DueTriangle(w.durable.baseline, w.memory.baseline, level);
  }

  /** Even when the kernel's counters are also reset from outside, no byte is charged that was not carried. */
  lemma {:induction false} NeverOvercharged(steps: seq<Step>)
    ensures NeverOver(Run(START, steps))
    ensures Run(START, steps).durable.charged <= Run(START, steps).carried
  {
    hide Next;
    if steps != [] {
      NeverOvercharged(steps[..|steps| - 1]);
      NextNeverOver(Run(START, steps[..|steps| - 1]), steps[|steps| - 1]);
    }
  }

  /**
   A rebuild loses only what passes while the table is replaced, as long as there is a table; a table
   that is gone has taken with it what it counted beyond the last sample, and no more.
   */
  lemma RebuildLosesOnlyMeanwhile(w: World, meanwhile: nat)
    requires Conserved(w)
    ensures var w' := Next(w, Rebuild(meanwhile));
            && w'.durable == w.durable && w'.memory == w.memory
            && (w.kernel.Live? ==> w'.kernel == w.kernel && w'.lost == w.lost + meanwhile)
            && (w.kernel.Gone? ==> w'.kernel == Live(w.memory.baseline) && w'.lost == w.lost + (w.kernel.last - w.memory.baseline) + meanwhile)
  {
  }

  /** A rebuild keeps the value of a live rule, whatever the account says. */
  lemma RebuildKeepsLive(w: World, meanwhile: nat)
    requires w.kernel.Live?
    ensures Next(w, Rebuild(meanwhile)).kernel == w.kernel
  {
  }

  /** Once a sample is saved all but the lost bytes are charged for good, and a crash cannot take them back. */
  lemma SavedIsCharged(w: World)
    requires Conserved(w) && w.kernel.Live?
    ensures var w' := Next(Next(w, Sample), Save);
            && w'.durable.charged + w'.lost == w'.carried == w.carried
            && Next(w', Crash) == w'
  {
  }

  /** A crash before a save takes back what was charged since, and nothing else. */
  lemma CrashForgets(w: World)
    ensures var w' := Next(w, Crash); w' == w.(memory := w.durable)
  {
  }

  /** What passed while tables were replaced. */
  function Meanwhile(steps: seq<Step>): nat {
    if steps == [] then 0
    else Meanwhile(steps[..|steps| - 1]) + match steps[|steps| - 1] case Rebuild(bytes) => bytes case _ => 0
  }

  /** Over any run in which the table is never lost, every byte but those is charged or still to be charged. */
  lemma {:induction false} OnlyRebuildsLose(w: World, steps: seq<Step>)
    requires Conserved(w) && w.kernel.Live? && ResetCounter !in steps && LoseTable !in steps
    ensures var w' := Run(w, steps);
            && Conserved(w') && w'.kernel.Live? && w'.lost == w.lost + Meanwhile(steps)
            && w'.durable.charged + (w'.kernel.value - w'.durable.baseline) + w.lost + Meanwhile(steps) == w'.carried
  {
    if steps != [] {
      var front, s := steps[..|steps| - 1], steps[|steps| - 1];
      OnlyRebuildsLose(w, front);
      NextConserves(Run(w, front), s);
      match s
      case Rebuild(bytes) => RebuildLosesOnlyMeanwhile(Run(w, front), bytes);
      case _ =>
    }
  }

  /** After a reset from outside a sample charges what the counter shows, or what it shows beyond the old baseline. */
  lemma ResetThenSample(w: World, bytes: nat)
    requires w.kernel.Live?
    ensures var w' := Next(Next(Next(w, ResetCounter), Traffic(bytes)), Sample);
            && w'.memory.baseline == bytes
            && w'.memory.charged == w.memory.charged + if bytes < w.memory.baseline then bytes else bytes - w.memory.baseline
  {
  }

  // ------------------------------------------------------------------------------------------
  // All nodes
  // ------------------------------------------------------------------------------------------

  datatype Direction = Upload | Download

  type Mark = nat

  datatype Node = Node(title: string, mark: Mark, up: nat, down: nat)

  datatype User = User(up: nat, down: nat, nodes: seq<Node>)

  /** Counters are named by a mark, or in older tables by a display label. */
  datatype Name = ByMark(mark: Mark) | ByLabel(title: string)

  type Counters = map<(Name, Direction), int>

  type Baselines = map<(Mark, Direction), int>

  function Total(n: Node, d: Direction): nat {
    if d == Upload then n.up else n.down
  }

  function UserTotal(u: User, d: Direction): nat {
    if d == Upload then u.up else u.down
  }

  function NodesTotal(nodes: seq<Node>, d: Direction): nat {
    if nodes == [] then 0 else NodesTotal(nodes[..|nodes| - 1], d) + Total(nodes[|nodes| - 1], d)
  }

  function Labelled(nodes: seq<Node>, title: string): nat {
    if nodes == [] then 0
    else Labelled(nodes[..|nodes| - 1], title) + if nodes[|nodes| - 1].title == title then 1 else 0
  }

  predicate DistinctMarks(nodes: seq<Node>) {
    forall i, j :: 0 <= i < j < |nodes| ==> nodes[i].mark != nodes[j].mark
  }

  /** No other node has the title. */
  predicate Alone(nodes: seq<Node>, i: nat)
    requires i < |nodes|
  {
    forall j :: 0 <= j < |nodes| && j != i ==> nodes[j].title != nodes[i].title
  }

  lemma {:induction false} NobodyLabelled(nodes: seq<Node>, title: string)
    ensures Labelled(nodes, title) == 0 <==> forall j :: 0 <= j < |nodes| ==> nodes[j].title != title
  {
    if nodes != [] {
      NobodyLabelled(nodes[..|nodes| - 1], title);
    }
  }

  lemma {:induction false} LabelledOnce(nodes: seq<Node>, i: nat)
    requires i < |nodes|
    ensures Labelled(nodes, nodes[i].title) == 1 <==> Alone(nodes, i)
  {
    var n, title := |nodes| - 1, nodes[i].title;
    var front := nodes[..n];
    NobodyLabelled(front, title);
    if i == n {
      assert Labelled(front, title) == 0 <==> Alone(nodes, i);
    } else {
      LabelledOnce(front, i);
      assert front[i] == nodes[i];
      assert Labelled(front, title) != 0;
      assert Alone(nodes, i) <==> Alone(front, i) && nodes[n].title != title;
    }
  }

  /**
   Gives counters named by a label to the node of that label, when there is exactly one and its mark
   has no counter of its own. A counter whose label fits several nodes goes to none of them.
   */
  method Canonical(nodes: seq<Node>, counters: Counters) returns (result: Counters)
    requires DistinctMarks(nodes)
    ensures forall k :: k in counters ==> k in result && result[k] == counters[k]
    ensures forall i, d: Direction :: 0 <= i < |nodes| && (ByMark(nodes[i].mark), d) !in counters ==>
              && ((ByMark(nodes[i].mark), d) in result <==> Alone(nodes, i) && (ByLabel(nodes[i].title), d) in counters)
              && ((ByMark(nodes[i].mark), d) in result ==> result[(ByMark(nodes[i].mark), d)] == counters[(ByLabel(nodes[i].title), d)])
    ensures forall k :: k in result && k !in counters ==> k.0.ByMark? && exists i :: 0 <= i < |nodes| && nodes[i].mark == k.0.mark
  {
    hide Labelled;
    result := counters;
    for i := 0 to |nodes|
      invariant forall k :: k in counters ==> k in result && result[k] == counters[k]
      invariant forall j, d: Direction :: 0 <= j < i && (ByMark(nodes[j].mark), d) !in counters ==>
        && ((ByMark(nodes[j].mark), d) in result <==> Alone(nodes, j) && (ByLabel(nodes[j].title), d) in counters)
        && ((ByMark(nodes[j].mark), d) in result ==> result[(ByMark(nodes[j].mark), d)] == counters[(ByLabel(nodes[j].title), d)])
      invariant forall k :: k in result && k !in counters ==> k.0.ByMark? && exists j :: 0 <= j < i && nodes[j].mark == k.0.mark
    {
      var n := nodes[i];
      LabelledOnce(nodes, i);
      hide Alone;
      ghost var before := result;
      forall d: Direction
        ensures (ByMark(n.mark), d) in before <==> (ByMark(n.mark), d) in counters
      {
      }
      if Labelled(nodes, n.title) == 1 {
        if (ByMark(n.mark), Upload) !in result && (ByLabel(n.title), Upload) in counters {
          result := result[(ByMark(n.mark), Upload) := counters[(ByLabel(n.title), Upload)]];
        }
        if (ByMark(n.mark), Download) !in result && (ByLabel(n.title), Download) in counters {
          result := result[(ByMark(n.mark), Download) := counters[(ByLabel(n.title), Download)]];
        }
      }
      forall d: Direction | (ByMark(n.mark), d) !in counters
        ensures (ByMark(n.mark), d) in result <==> Alone(nodes, i) && (ByLabel(n.title), d) in counters
      {
        assert (ByMark(n.mark), d) !in before;
        assert d == Upload || d == Download;
      }
      assert forall k :: k in result && k !in before ==> k.0 == ByMark(n.mark);
      assert forall k :: k in before ==> k in result && result[k] == before[k];
    }
  }

  /** What the live counter adds to a node in one direction. */
  function Delta(baselines: Baselines, live: Counters, mark: Mark, d: Direction): nat {
    if (ByMark(mark), d) !in live then 0
    else
      var due := Due(if (mark, d) in baselines then baselines[(mark, d)] else 0, live[(ByMark(mark), d)]);
      if due > 0 then due else 0
  }

  function NewBaselines(baselines: Baselines, live: Counters, mark: Mark, d: Direction): Baselines {
    if (ByMark(mark), d) in live then baselines[(mark, d) := live[(ByMark(mark), d)]] else baselines
  }

  function Both(baselines: Baselines, live: Counters, mark: Mark): Baselines {
    NewBaselines(NewBaselines(baselines, live, mark, Upload), live, mark, Download)
  }

  /** A node after a sync. */
  function Charged(n: Node, baselines: Baselines, live: Counters): Node {
    n.(up := n.up + Delta(baselines, live, n.mark, Upload), down := n.down + Delta(baselines, live, n.mark, Download))
  }

  function NodesRise(before: seq<Node>, after: seq<Node>, d: Direction): int {
    NodesTotal(after, d) - NodesTotal(before, d)
  }

  /** The node still to be visited finds the baselines it had at the start. */
  predicate Untouched(before: Baselines, after: Baselines, mark: Mark) {
    forall d: Direction :: ((mark, d) in after <==> (mark, d) in before) && ((mark, d) in after && (mark, d) in before ==> after[(mark, d)] == before[(mark, d)])
  }

  lemma UntouchedDelta(before: Baselines, after: Baselines, live: Counters, mark: Mark, d: Direction)
    requires Untouched(before, after, mark)
    ensures Delta(after, live, mark, d) == Delta(before, live, mark, d)
  {
  }

  lemma BothTouchesOne(baselines: Baselines, live: Counters, mark: Mark, other: Mark)
    requires mark != other
    ensures Untouched(baselines, Both(baselines, live, mark), other)
  {
  }

  lemma UntouchedSelf(baselines: Baselines)
    ensures forall mark :: Untouched(baselines, baselines, mark)
  {
  }

  lemma UntouchedTwice(a: Baselines, b: Baselines, c: Baselines, mark: Mark)
    requires Untouched(a, b, mark) && Untouched(b, c, mark)
    ensures Untouched(a, c, mark)
  {
  }

  lemma ReplaceNode(nodes: seq<Node>, i: nat, n: Node, d: Direction)
    requires i < |nodes|
    ensures NodesTotal(nodes[i := n], d) == NodesTotal(nodes, d) + Total(n, d) - Total(nodes[i], d)
    decreases |nodes|
  {
    var last := |nodes| - 1;
    if i < last {
      ReplaceNode(nodes[..last], i, n, d);
      assert nodes[i := n][..last] == nodes[..last][i := n];
    } else {
      assert nodes[i := n][..last] == nodes[..last];
    }
  }

  /** In each direction the user's total rose by what its nodes' totals rose by. */
  predicate RisesTogether(before: User, after: User) {
    forall d: Direction :: UserTotal(after, d) - UserTotal(before, d) == NodesRise(before.nodes, after.nodes, d)
  }

  predicate NotAmong(nodes: seq<Node>, mark: Mark) {
    forall i :: 0 <= i < |nodes| ==> nodes[i].mark != mark
  }

  lemma NoRise(u: User)
    ensures RisesTogether(u, u)
  {
  }

  lemma RiseStep(u: User, r: User, i: nat, live: Counters, baselines: Baselines)
    requires i < |r.nodes| && RisesTogether(u, r)
    ensures var n := Charged(r.nodes[i], baselines, live);
            RisesTogether(u, r.(up := r.up + Delta(baselines, live, r.nodes[i].mark, Upload),
                                down := r.down + Delta(baselines, live, r.nodes[i].mark, Download), nodes := r.nodes[i := n]))
  {
    hide Delta;
    var n := Charged(r.nodes[i], baselines, live);
    ReplaceNode(r.nodes, i, n, Upload);
    ReplaceNode(r.nodes, i, n, Download);
  }

  lemma OneMoreMark(nodes: seq<Node>, i: nat, mark: Mark)
    requires i < |nodes| && NotAmong(nodes[..i + 1], mark)
    ensures NotAmong(nodes[..i], mark) && nodes[i].mark != mark
  {
    assert nodes[..i + 1][i] == nodes[i];
    assert forall j :: 0 <= j < i ==> nodes[..i][j] == nodes[..i + 1][j];
  }

  lemma OwnMark(nodes: seq<Node>, i: nat)
    requires DistinctMarks(nodes) && i < |nodes|
    ensures NotAmong(nodes[..i], nodes[i].mark)
  {
  }

  /** The mark's baselines are the live counters of that mark, and as at the start where there is none. */
  predicate Settled(before: Baselines, after: Baselines, live: Counters, mark: Mark) {
    Untouched(Both(before, live, mark), after, mark)
  }

  lemma SettlesOwn(start: Baselines, before: Baselines, live: Counters, mark: Mark)
    requires Untouched(start, before, mark)
    ensures Settled(start, Both(before, live, mark), live, mark)
  {
  }

  lemma StaysSettled(start: Baselines, before: Baselines, after: Baselines, live: Counters, mark: Mark)
    requires Settled(start, before, live, mark) && Untouched(before, after, mark)
    ensures Settled(start, after, live, mark)
  {
    hide Both;
    UntouchedTwice(Both(start, live, mark), before, after, mark);
  }

  predicate NonNegative(baselines: Baselines, live: Counters) {
    (forall k :: k in baselines ==> baselines[k] >= 0) && (forall k :: k in live ==> live[k] >= 0)
  }

  /** What a node was charged in one direction so far, and the counter value that covers. */
  function AccountOf(n: Node, baselines: Baselines, d: Direction): Account {
    var b := if (n.mark, d) in baselines then baselines[(n.mark, d)] else 0;
    Account(Total(n, d), if b >= 0 then b else 0)
  }

  /** The node's account has taken the sample of its live counter, or nothing if there is none. */
  predicate TookSample(n: Node, before: Baselines, n': Node, after: Baselines, live: Counters, d: Direction) {
    AccountOf(n', after, d) ==
    if (ByMark(n.mark), d) in live && live[(ByMark(n.mark), d)] >= 0 then Sampled(AccountOf(n, before, d), live[(ByMark(n.mark), d)])
    else AccountOf(n, before, d)
  }

  lemma ChargedTookSample(n: Node, before: Baselines, after: Baselines, live: Counters, d: Direction)
    requires Settled(before, after, live, n.mark) && NonNegative(before, live)
    ensures TookSample(n, before, Charged(n, before, live), after, live, d)
  {
  }

  lemma OtherMark(nodes: seq<Node>, j: nat, i: nat)
    requires DistinctMarks(nodes) && j < i < |nodes|
    ensures nodes[j].mark != nodes[i].mark
  {
  }

  class Ledger {
    var users: seq<User>
    var baselines: Baselines

    constructor (users: seq<User>, baselines: Baselines)
      ensures this.users == users && this.baselines == baselines
    {
      this.users, this.baselines := users, baselines;
    }

    /** Both directions of one node. */
    method SyncNode(n: Node, live: Counters) returns (r: Node, up: nat, down: nat)
      modifies this`baselines
      ensures r == Charged(n, old(baselines), live) && baselines == Both(old(baselines), live, n.mark)
      ensures up == Delta(old(baselines), live, n.mark, Upload) && down == Delta(old(baselines), live, n.mark, Download)
    {
      r, up, down := n, 0, 0;
      if (ByMark(n.mark), Upload) in live {
        var current := live[(ByMark(n.mark), Upload)];
        var previous := if (n.mark, Upload) in baselines then baselines[(n.mark, Upload)] else 0;
        var delta := current - previous;
        if delta < 0 {
          delta := current;
        }
        if delta > 0 {
          r, up := r.(up := r.up + delta), delta;
        }
        baselines := baselines[(n.mark, Upload) := current];
      }
      if (ByMark(n.mark), Download) in live {
        var current := live[(ByMark(n.mark), Download)];
        var previous := if (n.mark, Download) in baselines then baselines[(n.mark, Download)] else 0;
        var delta := current - previous;
        if delta < 0 {
          delta := current;
        }
        if delta > 0 {
          r, down := r.(down := r.down + delta), delta;
        }
        baselines := baselines[(n.mark, Download) := current];
      }
    }

    /**
     One user's nodes. The user's totals rise by what its nodes' totals rise by, whatever the
     counters say; a node whose mark occurs once is charged the growth of its own counter.
     */
    method SyncUser(u: User, live: Counters) returns (r: User)
      modifies this`baselines
      ensures |r.nodes| == |u.nodes| && RisesTogether(u, r)
      ensures DistinctMarks(u.nodes) ==> forall i :: 0 <= i < |u.nodes| ==> r.nodes[i] == Charged(u.nodes[i], old(baselines), live)
      ensures DistinctMarks(u.nodes) ==> forall i :: 0 <= i < |u.nodes| ==> Settled(old(baselines), baselines, live, u.nodes[i].mark)
      ensures forall mark :: NotAmong(u.nodes, mark) ==> Untouched(old(baselines), baselines, mark)
    {
      hide Settled;
      hide Delta;
      hide Both;
      hide Untouched;
      hide RisesTogether;
      hide NotAmong;
      hide DistinctMarks;
      hide Charged;
      UntouchedSelf(baselines);
      NoRise(u);
      r := u;
      for i := 0 to |u.nodes|
        invariant |r.nodes| == |u.nodes| && RisesTogether(u, r)
        invariant forall j :: i <= j < |u.nodes| ==> r.nodes[j] == u.nodes[j]
        invariant DistinctMarks(u.nodes) ==> forall j :: 0 <= j < i ==> r.nodes[j] == Charged(u.nodes[j], old(baselines), live)
        invariant DistinctMarks(u.nodes) ==> forall j :: 0 <= j < i ==> Settled(old(baselines), baselines, live, u.nodes[j].mark)
        invariant forall mark :: NotAmong(u.nodes[..i], mark) ==> Untouched(old(baselines), baselines, mark)
      {
        ghost var before := baselines;
        var n, up, down := SyncNode(r.nodes[i], live);
        forall mark | NotAmong(u.nodes[..i + 1], mark)
          ensures Untouched(old(baselines), baselines, mark)
        {
          OneMoreMark(u.nodes, i, mark);
          BothTouchesOne(before, live, u.nodes[i].mark, mark);
          UntouchedTwice(old(baselines), before, baselines, mark);
        }
        if DistinctMarks(u.nodes) {
          OwnMark(u.nodes, i);
          SameCharge(u.nodes[i], old(baselines), before, live);
          SettlesOwn(old(baselines), before, live, u.nodes[i].mark);
          forall j | 0 <= j < i
            ensures Settled(old(baselines), baselines, live, u.nodes[j].mark)
          {
            OtherMark(u.nodes, j, i);
            BothTouchesOne(before, live, u.nodes[i].mark, u.nodes[j].mark);
            StaysSettled(old(baselines), before, baselines, live, u.nodes[j].mark);
          }
        }
        RiseStep(u, r, i, live, before);
        r := r.(up := r.up + up, down := r.down + down, nodes := r.nodes[i := n]);
      }
      assert u.nodes[..|u.nodes|] == u.nodes;
    }

    /** Charges every user; no byte reaches a user that does not reach one of its nodes. */
    method Sync(live: Counters)
      modifies this
      ensures |users| == |old(users)|
      ensures forall k :: 0 <= k < |users| ==> RisesTogether(old(users)[k], users[k])
      ensures DistinctEverywhere(old(users)) ==> forall k :: 0 <= k < |users| ==>
                AllCharged(old(users)[k].nodes, users[k].nodes, old(baselines), live)
      ensures DistinctEverywhere(old(users)) && NonNegative(old(baselines), live) ==>
                forall k, i, d: Direction :: 0 <= k < |users| && 0 <= i < |users[k].nodes| && i < |old(users)[k].nodes| ==>
                  TookSample(old(users)[k].nodes[i], old(baselines), users[k].nodes[i], baselines, live, d)
    {
      hide Settled;
      hide TookSample;
      hide NonNegative;
      hide Charged;
      hide Untouched;
      hide RisesTogether;
      hide NotAmong;
      hide DistinctEverywhere;
      hide DistinctMarks;
      ghost var was := users;
      UntouchedSelf(baselines);
      for k := 0 to |users|
        invariant |users| == |was| && users[k..] == was[k..]
        invariant forall j :: 0 <= j < k ==> RisesTogether(was[j], users[j])
        invariant DistinctEverywhere(was) ==> forall j :: 0 <= j < k ==>
          AllCharged(was[j].nodes, users[j].nodes, old(baselines), live) && AllSettled(was[j].nodes, old(baselines), baselines, live)
        invariant forall mark :: (forall j :: 0 <= j < k ==> NotAmong(was[j].nodes, mark)) ==> Untouched(old(baselines), baselines, mark)
      {
        ghost var before := baselines;
        assert users[k] == users[k..][0] == was[k..][0];
        var u := SyncUser(users[k], live);
        forall mark | forall j :: 0 <= j < k + 1 ==> NotAmong(was[j].nodes, mark)
          ensures Untouched(old(baselines), baselines, mark)
        {
          UntouchedTwice(old(baselines), before, baselines, mark);
        }
        if DistinctEverywhere(was) {
          MarksOfUser(was, k);
          forall j | 0 <= j < k
            ensures AllSettled(was[j].nodes, old(baselines), baselines, live)
          {
            MarksOfOther(was, k, j);
            AllStaySettled(was[j].nodes, old(baselines), before, baselines, live);
          }
          SettledFromStart(was[k].nodes, old(baselines), before, baselines, live);
          forall i | 0 <= i < |was[k].nodes|
            ensures u.nodes[i] == Charged(was[k].nodes[i], old(baselines), live)
          {
            SameCharge(was[k].nodes[i], old(baselines), before, live);
          }
        }
        users := users[k := u];
      }
      if DistinctEverywhere(was) && NonNegative(old(baselines), live) {
        forall k, i, d: Direction | 0 <= k < |users| && 0 <= i < |users[k].nodes| && i < |was[k].nodes|
          ensures TookSample(was[k].nodes[i], old(baselines), users[k].nodes[i], baselines, live, d)
        {
          ChargedTookSample(was[k].nodes[i], old(baselines), baselines, live, d);
        }
      }
    }
  }

  predicate AllSettled(nodes: seq<Node>, before: Baselines, after: Baselines, live: Counters) {
    forall i :: 0 <= i < |nodes| ==> Settled(before, after, live, nodes[i].mark)
  }

  lemma AllStaySettled(nodes: seq<Node>, start: Baselines, before: Baselines, after: Baselines, live: Counters)
    requires AllSettled(nodes, start, before, live) && forall i :: 0 <= i < |nodes| ==> Untouched(before, after, nodes[i].mark)
    ensures AllSettled(nodes, start, after, live)
  {
    hide Settled;
    forall i | 0 <= i < |nodes|
      ensures Settled(start, after, live, nodes[i].mark)
    {
      StaysSettled(start, before, after, live, nodes[i].mark);
    }
  }

  /** A user's marks were untouched when its turn came. */
  lemma SettledFromStart(nodes: seq<Node>, start: Baselines, before: Baselines, after: Baselines, live: Counters)
    requires AllSettled(nodes, before, after, live) && forall i :: 0 <= i < |nodes| ==> Untouched(start, before, nodes[i].mark)
    ensures AllSettled(nodes, start, after, live)
  {
    forall i | 0 <= i < |nodes|
      ensures Settled(start, after, live, nodes[i].mark)
    {
      SettlesOwn(start, before, live, nodes[i].mark);
      UntouchedTwice(Both(start, live, nodes[i].mark), Both(before, live, nodes[i].mark), after, nodes[i].mark);
    }
  }

  lemma MarksOfOther(users: seq<User>, k: nat, l: nat)
    requires DistinctEverywhere(users) && l < k < |users|
    ensures forall i :: 0 <= i < |users[l].nodes| ==> NotAmong(users[k].nodes, users[l].nodes[i].mark)
  {
  }

  /** Each node was charged the growth of its own counter. */
  predicate AllCharged(before: seq<Node>, after: seq<Node>, baselines: Baselines, live: Counters) {
    |after| == |before| && forall i :: 0 <= i < |before| ==> after[i] == Charged(before[i], baselines, live)
  }

  lemma SameCharge(n: Node, before: Baselines, after: Baselines, live: Counters)
    requires Untouched(before, after, n.mark)
    ensures Charged(n, after, live) == Charged(n, before, live)
  {
    UntouchedDelta(before, after, live, n.mark, Upload);
    UntouchedDelta(before, after, live, n.mark, Download);
  }

  /** No mark is shared, within a user or between two. */
  predicate DistinctEverywhere(users: seq<User>) {
    forall k, l, i, j :: 0 <= k < |users| && 0 <= l < |users| && 0 <= i < |users[k].nodes| && 0 <= j < |users[l].nodes| && (k != l || i != j) ==>
      users[k].nodes[i].mark != users[l].nodes[j].mark
  }

  lemma MarksOfUser(users: seq<User>, k: nat)
    requires DistinctEverywhere(users) && k < |users|
    ensures DistinctMarks(users[k].nodes)
    ensures forall i, l :: 0 <= i < |users[k].nodes| && 0 <= l < k ==> NotAmong(users[l].nodes, users[k].nodes[i].mark)
  {
  }
}
