/**
 Charging on the master what its entry machines measured, from cumulative snapshots that may arrive
 late, repeated or out of order, while credentials are rotated.

 The identity of a node is the digest of its connection secret; different secrets have different
 identities.
 */
module MeshUsage {
  import opened Wrappers

  type Member = string
  type Identity = string

  datatype Direction = Upload | Download

  const MAX := 0x7fff_ffff_ffff_ffff

  datatype Node = Node(auth: string, identity: Identity, entry: Option<Member>, up: nat, down: nat)

  datatype User = User(up: nat, down: nat, nodes: seq<Node>)

  datatype Usage = Usage(auth: string, identity: Identity, up: int, down: int)

  /** The highest cumulative value merged so far, per machine, identity and direction. */
  type Marks = map<(Member, Identity, Direction), int>

  function Max(a: int, b: int): int {
    if a > b then a else b
  }

  function Total(n: Node, d: Direction): nat {
    if d == Upload then n.up else n.down
  }

  function UserTotal(u: User, d: Direction): nat {
    if d == Upload then u.up else u.down
  }

  function Value(s: Usage, d: Direction): int {
    if d == Upload then s.up else s.down
  }

  function Mark(marks: Marks, member: Member, id: Identity, d: Direction): int {
    if (member, id, d) in marks then marks[(member, id, d)] else 0
  }

  function NodesTotal(nodes: seq<Node>, d: Direction): nat {
    if nodes == [] then 0 else NodesTotal(nodes[..|nodes| - 1], d) + Total(nodes[|nodes| - 1], d)
  }

  predicate Matches(n: Node, member: Member, s: Usage) {
    n.entry == Some(member) && n.auth == s.auth && n.identity == s.identity
  }

  predicate WellFormed(s: Usage) {
    s.up >= 0 && s.down >= 0 && |s.identity| == 64
  }

  predicate DistinctLogins(samples: seq<Usage>) {
    forall i, j :: 0 <= i < j < |samples| ==> samples[i].auth != samples[j].auth
  }

  /** What a sample adds to the node it is for. */
  function Growth(marks: Marks, member: Member, s: Usage, d: Direction): nat {
    Max(0, Value(s, d) - Mark(marks, member, s.identity, d))
  }

  /** All of a first reading counts; of a later one what it is above the highest before. */
  lemma GrowthIsAboveMark(marks: Marks, member: Member, s: Usage, d: Direction)
    ensures var key, value, growth := (member, s.identity, d), if d == Upload then s.up else s.down, Growth(marks, member, s, d);
            && (key !in marks && value >= 0 ==> growth == value)
            && (key in marks && value >= marks[key] ==> marks[key] + growth == value)
            && (key in marks && value < marks[key] ==> growth == 0)
  {
  }

  function Raised(marks: Marks, member: Member, s: Usage): Marks {
    marks[(member, s.identity, Upload) := Max(Mark(marks, member, s.identity, Upload), s.up)]
         [(member, s.identity, Download) := Max(Mark(marks, member, s.identity, Download), s.down)]
  }

  /** The node with its totals raised. */
  function Charged(n: Node, up: nat, down: nat): Node {
    n.(up := n.up + up, down := n.down + down)
  }

  // ------------------------------------------------------------------------------------------
  // One snapshot
  // ------------------------------------------------------------------------------------------

  /** In each direction the user's total rose by what its nodes' totals rose by. */
  predicate RisesTogether(before: User, after: User) {
    forall d: Direction ::
      UserTotal(after, d) - UserTotal(before, d) == NodesTotal(after.nodes, d) - NodesTotal(before.nodes, d)
  }

  predicate Matched(nodes: seq<Node>, member: Member, s: Usage) {
    exists i :: 0 <= i < |nodes| && Matches(nodes[i], member, s)
  }

  predicate DistinctNodes(nodes: seq<Node>) {
    forall i, j :: 0 <= i < j < |nodes| ==> nodes[i].auth != nodes[j].auth
  }

  /** What one sample makes of a node. */
  function After(n: Node, marks: Marks, member: Member, s: Usage): Node {
    if Matches(n, member, s) then Charged(n, Growth(marks, member, s, Upload), Growth(marks, member, s, Download)) else n
  }

  lemma {:induction false} ReplaceNode(nodes: seq<Node>, i: nat, n: Node, d: Direction)
    requires i < |nodes|
    ensures NodesTotal(nodes[i := n], d) == NodesTotal(nodes, d) + Total(n, d) - Total(nodes[i], d)
    decreases |nodes|
  {
    var last := |nodes| - 1;
    if i < last {
      ReplaceNode(nodes[..last], i, n, d);
      assert nodes[i := n][..last] == nodes[..last][i := n];
    } else {
      assert nodes[i := n][..last] == nodes[..last];
    }
  }

  lemma NoRise(u: User)
    ensures RisesTogether(u, u)
  {
  }

  lemma RiseStep(u: User, r: User, i: nat, up: nat, down: nat)
    requires i < |r.nodes| && RisesTogether(u, r)
    ensures RisesTogether(u, User(r.up + up, r.down + down, r.nodes[i := Charged(r.nodes[i], up, down)]))
  {
    var n := Charged(r.nodes[i], up, down);
    ReplaceNode(r.nodes, i, n, Upload);
    ReplaceNode(r.nodes, i, n, Download);
  }

  /** A node list after one sample: logins, identities and entries stay. */
  predicate SameNodes(before: seq<Node>, after: seq<Node>) {
    |after| == |before| && forall i :: 0 <= i < |before| ==>
      after[i].auth == before[i].auth && after[i].identity == before[i].identity && after[i].entry == before[i].entry
  }

  predicate AllAfter(before: seq<Node>, after: seq<Node>, marks: Marks, member: Member, s: Usage) {
    |after| == |before| && forall i :: 0 <= i < |before| ==> after[i] == After(before[i], marks, member, s)
  }

  /** No login occurs twice, within a user or between two. */
  predicate DistinctEverywhere(users: seq<User>) {
    forall k, l, i, j ::
      0 <= k < |users| && 0 <= l < |users| && 0 <= i < |users[k].nodes| && 0 <= j < |users[l].nodes| && (k != l || i != j) ==>
      users[k].nodes[i].auth != users[l].nodes[j].auth
  }

  /** One of the user's nodes matches the sample and would leave the range of the counters, or the user would. */
  predicate Overflows(u: User, marks: Marks, member: Member, s: Usage) {
    exists i, d: Direction :: 0 <= i < |u.nodes| && Matches(u.nodes[i], member, s) && TooMuch(u, i, marks, member, s, d)
  }

  predicate TooMuch(u: User, i: nat, marks: Marks, member: Member, s: Usage, d: Direction)
    requires i < |u.nodes|
  {
    Growth(marks, member, s, d) > MAX - UserTotal(u, d) || Growth(marks, member, s, d) > MAX - Total(u.nodes[i], d)
  }

  predicate InRange(u: User) {
    forall d: Direction :: UserTotal(u, d) <= MAX && forall i :: 0 <= i < |u.nodes| ==> Total(u.nodes[i], d) <= MAX
  }

  class Master {
    var users: seq<User>
    var marks: Marks

    constructor (users: seq<User>, marks: Marks)
      ensures this.users == users && this.marks == marks
    {
      this.users, this.marks := users, marks;
    }

    method MergeUser(u: User, member: Member, s: Usage) returns (ok: bool, r: User)
      modifies this`marks
      ensures ok ==> SameNodes(u.nodes, r.nodes) && RisesTogether(u, r)
      ensures ok ==> marks == if Matched(u.nodes, member, s) then Raised(old(marks), member, s) else old(marks)
      ensures ok && DistinctNodes(u.nodes) ==> AllAfter(u.nodes, r.nodes, old(marks), member, s)
      ensures DistinctNodes(u.nodes) ==> (ok <==> !Overflows(u, old(marks), member, s))
      ensures ok && InRange(u) ==> InRange(r)
    {
      hide RisesTogether;
      hide Growth;
      hide Raised;
      hide Mark;
      hide Charged;
      NoRise(u);
      ok, r := true, u;
      for i := 0 to |u.nodes|
        invariant |r.nodes| == |u.nodes| && RisesTogether(u, r)
        invariant forall j :: 0 <= j < |u.nodes| ==> SameIdentity(u.nodes[j], r.nodes[j])
        invariant forall j :: i <= j < |u.nodes| ==> r.nodes[j] == u.nodes[j]
        invariant marks == if Matched(u.nodes[..i], member, s) then Raised(old(marks), member, s) else old(marks)
        invariant DistinctNodes(u.nodes) ==> forall j :: 0 <= j < i ==> r.nodes[j] == After(u.nodes[j], old(marks), member, s)
        invariant !Matched(u.nodes[..i], member, s) ==> r == u
        invariant DistinctNodes(u.nodes) ==>
          forall j, d: Direction :: 0 <= j < i && Matches(u.nodes[j], member, s) ==> !TooMuch(u, j, old(marks), member, s, d)
        invariant InRange(u) ==> InRange(r)
      {
        var n := u.nodes[i];
        MatchedNext(u.nodes, i, member, s);
        if n.entry != Some(member) || n.auth != s.auth || n.identity != s.identity {
          continue;
        }
        var up, down := Growth(marks, member, s, Upload), Growth(marks, member, s, Download);
        if up > MAX - r.up || down > MAX - r.down || up > MAX - n.up || down > MAX - n.down {
          assert DistinctNodes(u.nodes) ==> TooMuch(u, i, old(marks), member, s, Upload) || TooMuch(u, i, old(marks), member, s, Download);
          return false, u;
        }
        StaysInRange(r, i, up, down);
        ChargedIdentity(n, up, down);
        RiseStep(u, r, i, up, down);
        r := User(r.up + up, r.down + down, r.nodes[i := Charged(n, up, down)]);
        RaisedTwice(old(marks), member, s);
        marks := Raised(marks, member, s);
      }
      assert u.nodes[..|u.nodes|] == u.nodes;
    }

    /** One sample, offered to every node. */
    method MergeSample(member: Member, s: Usage) returns (ok: bool)
      modifies this
      ensures ok ==> AllSame(old(users), users)
      ensures ok ==> marks == if MatchedAny(old(users), member, s) then Raised(old(marks), member, s) else old(marks)
      ensures ok && DistinctEverywhere(old(users)) ==> forall k :: 0 <= k < |users| ==>
                AllAfter(old(users)[k].nodes, users[k].nodes, old(marks), member, s)
      ensures DistinctEverywhere(old(users)) ==> (ok <==> forall k :: 0 <= k < |old(users)| ==> !Overflows(old(users)[k], old(marks), member, s))
      ensures ok && AllInRange(old(users)) ==> AllInRange(users)
    {
      hide RisesTogether;
      hide Overflows;
      hide InRange;
      hide Raised;
      hide After;
      hide DistinctEverywhere;
      hide DistinctNodes;
      hide Matched;
      hide SameNodes;
      hide AllAfter;
      ghost var was := users;
      ok := true;
      for k := 0 to |users|
        invariant |users| == |was| && forall j :: k <= j < |users| ==> users[j] == was[j]
        invariant forall j :: 0 <= j < k ==> SameNodes(was[j].nodes, users[j].nodes) && RisesTogether(was[j], users[j])
        invariant marks == if MatchedAny(was[..k], member, s) then Raised(old(marks), member, s) else old(marks)
        invariant DistinctEverywhere(was) ==> forall j :: 0 <= j < k ==> AllAfter(was[j].nodes, users[j].nodes, old(marks), member, s)
        invariant DistinctEverywhere(was) ==> forall j :: 0 <= j < k ==> !Overflows(was[j], old(marks), member, s)
        invariant AllInRange(was) ==> forall j :: 0 <= j < k ==> InRange(users[j])
      {
        ghost var before := marks;
        if DistinctEverywhere(was) {
          DistinctUser(was, k);
          FirstMatch(was, k, member, s);
          OnlyMatchedOverflows(was[k], member, s);
        }
        var done, u := MergeUser(users[k], member, s);
        if !done {
          return false;
        }
        MatchedAnyNext(was, k, member, s);
        RaisedTwice(old(marks), member, s);
        if DistinctEverywhere(was) {
          SameAfter(was[k].nodes, u.nodes, before, old(marks), member, s);
        }
        users := users[k := u];
      }
      assert was[..|was|] == was;
    }

    /**
     Merges a machine's snapshot. A refused one is not saved; a merged one raises every mark to the
     highest value seen and charges exactly what the marks rose by.
     */
    method Merge(member: Member, samples: seq<Usage>) returns (ok: bool)
      modifies this
      ensures ok ==> DistinctLogins(samples)
                     && forall i :: 0 <= i < |samples| ==> samples[i].up >= 0 && samples[i].down >= 0 && |samples[i].identity| == 64
      ensures ok ==> AllSame(old(users), users)
      ensures ok && Distinct(old(users)) ==> forall k :: 0 <= k < |users| ==>
                AllMerged(old(users)[k].nodes, users[k].nodes, old(marks), marks, member, samples)
      ensures ok ==> marks == MarksAfter(old(marks), old(users), member, samples)
      ensures Distinct(old(users)) && AllInRange(old(users)) ==>
                (ok <==> (forall i :: 0 <= i < |samples| ==> samples[i].up >= 0 && samples[i].down >= 0 && |samples[i].identity| == 64)
                         && DistinctLogins(samples)
                         && Fits(old(users), old(marks), member, samples))
    {
      hide AllInRange;
      hide Overflows;
      hide Fits;
      hide RisesTogether;
      hide SameNodes;
      hide AllMerged;
      hide DistinctEverywhere;
      hide MarksAfter;
      hide AllAfter;
      hide MatchedAny;
      hide Raised;
      hide DistinctIdentities;
      ghost var was := users;
      ok := true;
      NothingMerged(was, marks, member);
      var seen: set<string> := {};
      for i := 0 to |samples|
        invariant forall j :: 0 <= j < i ==> WellFormed(samples[j]) && samples[j].auth in seen
        invariant DistinctLogins(samples[..i]) && forall a :: a in seen ==> exists j :: 0 <= j < i && samples[j].auth == a
        invariant AllSame(was, users)
        invariant Distinct(was) ==> forall k :: 0 <= k < |users| ==>
          AllMerged(was[k].nodes, users[k].nodes, old(marks), marks, member, samples[..i])
        invariant marks == MarksAfter(old(marks), was, member, samples[..i])
        invariant AllInRange(was) ==> AllInRange(users)
      {
        var s := samples[i];
        if !WellFormed(s) || s.auth in seen {
          return false;
        }
        seen := seen + {s.auth};
        ghost var before, marksBefore := users, marks;
        if Distinct(was) {
          SameLogins(was, before);
        }
        ok := MergeSample(member, s);
        if !ok {
          if Distinct(was) {
            OverflowMisfits(was, before, old(marks), marksBefore, member, samples, i);
          }
          return false;
        }
        SameMatchedAny(was, before, member, s);
        MarksAfterNext(old(marks), was, member, samples, i);
        if Distinct(was) {
          MergedNext(was, before, users, old(marks), marksBefore, member, samples, i);
        }
        SameTwice(was, before, users);
      }
      assert samples[..|samples|] == samples;
      if Distinct(was) && AllInRange(was) {
        MergedFits(was, users, old(marks), marks, member, samples);
      }
    }
  }

  predicate AllInRange(users: seq<User>) {
    forall k :: 0 <= k < |users| ==> InRange(users[k])
  }

  lemma StaysInRange(u: User, i: nat, up: nat, down: nat)
    requires i < |u.nodes| && up <= MAX - u.up && down <= MAX - u.down && up <= MAX - u.nodes[i].up && down <= MAX - u.nodes[i].down
    ensures InRange(u) ==> InRange(User(u.up + up, u.down + down, u.nodes[i := Charged(u.nodes[i], up, down)]))
  {
    if InRange(u) {
      var r := User(u.up + up, u.down + down, u.nodes[i := Charged(u.nodes[i], up, down)]);
      forall d: Direction
        ensures UserTotal(r, d) <= MAX && forall j :: 0 <= j < |r.nodes| ==> Total(r.nodes[j], d) <= MAX
      {
        assert UserTotal(u, d) <= MAX && (d == Upload || d == Download);
        forall j | 0 <= j < |r.nodes|
          ensures Total(r.nodes[j], d) <= MAX
        {
          assert Total(u.nodes[j], d) <= MAX;
        }
      }
    }
  }

  lemma OnlyMatchedOverflows(u: User, member: Member, s: Usage)
    ensures !Matched(u.nodes, member, s) ==> forall marks :: !Overflows(u, marks, member, s)
  {
  }

  predicate SameIdentity(a: Node, b: Node) {
    a.auth == b.auth && a.identity == b.identity && a.entry == b.entry
  }

  lemma ChargedIdentity(n: Node, up: nat, down: nat)
    ensures SameIdentity(n, Charged(n, up, down))
  {
  }

  predicate MatchedAny(users: seq<User>, member: Member, s: Usage) {
    exists k :: 0 <= k < |users| && Matched(users[k].nodes, member, s)
  }

  lemma MatchedNext(nodes: seq<Node>, i: nat, member: Member, s: Usage)
    requires i < |nodes|
    ensures Matched(nodes[..i + 1], member, s) <==> Matched(nodes[..i], member, s) || Matches(nodes[i], member, s)
    ensures DistinctNodes(nodes) && Matches(nodes[i], member, s) ==> !Matched(nodes[..i], member, s)
  {
    if Matched(nodes[..i], member, s) {
      var j :| 0 <= j < i && Matches(nodes[..i][j], member, s);
      assert Matches(nodes[..i + 1][j], member, s);
    }
    if Matches(nodes[i], member, s) {
      assert Matches(nodes[..i + 1][i], member, s);
    }
  }

  lemma MatchedAnyNext(users: seq<User>, k: nat, member: Member, s: Usage)
    requires k < |users|
    ensures MatchedAny(users[..k + 1], member, s) <==> MatchedAny(users[..k], member, s) || Matched(users[k].nodes, member, s)
  {
    hide Matched;
    if MatchedAny(users[..k], member, s) {
      var j :| 0 <= j < k && Matched(users[..k][j].nodes, member, s);
      assert Matched(users[..k + 1][j].nodes, member, s);
    }
    if Matched(users[k].nodes, member, s) {
      assert Matched(users[..k + 1][k].nodes, member, s);
    }
  }

  /** Offering a sample again raises nothing. */
  lemma RaisedTwice(marks: Marks, member: Member, s: Usage)
    ensures Raised(Raised(marks, member, s), member, s) == Raised(marks, member, s)
  {
  }

  lemma DistinctUser(users: seq<User>, k: nat)
    requires DistinctEverywhere(users) && k < |users|
    ensures DistinctNodes(users[k].nodes)
  {
  }

  lemma FirstMatch(users: seq<User>, k: nat, member: Member, s: Usage)
    requires DistinctEverywhere(users) && k < |users|
    ensures Matched(users[k].nodes, member, s) ==> !MatchedAny(users[..k], member, s)
  {
    forall l | 0 <= l < |users| && Matched(users[l].nodes, member, s) && Matched(users[k].nodes, member, s)
      ensures l == k
    {
      var i :| 0 <= i < |users[k].nodes| && Matches(users[k].nodes[i], member, s);
      var j :| 0 <= j < |users[l].nodes| && Matches(users[l].nodes[j], member, s);
    }
  }

  lemma SameAfter(before: seq<Node>, after: seq<Node>, a: Marks, b: Marks, member: Member, s: Usage)
    requires AllAfter(before, after, a, member, s) && (Matched(before, member, s) ==> a == b)
    ensures AllAfter(before, after, b, member, s)
  {
    hide Growth;
  }

  // ------------------------------------------------------------------------------------------
  // High-water marks
  // ------------------------------------------------------------------------------------------

  /** The highest of a starting mark and all values a node's samples carry. */
  function Highest(n: Node, start: int, member: Member, samples: seq<Usage>, d: Direction): int {
    if samples == [] then start
    else
      var front, s := Highest(n, start, member, samples[..|samples| - 1], d), samples[|samples| - 1];
      if Matches(n, member, s) then Max(front, Value(s, d)) else front
  }

  function MarksAfter(marks: Marks, users: seq<User>, member: Member, samples: seq<Usage>): Marks {
    if samples == [] then marks
    else
      var front, s := MarksAfter(marks, users, member, samples[..|samples| - 1]), samples[|samples| - 1];
      if MatchedAny(users, member, s) then Raised(front, member, s) else front
  }

  /** The node's mark is now the highest value seen, and it was charged exactly what the mark rose by. */
  predicate Merged(before: Node, after: Node, marks: Marks, marks': Marks, member: Member, samples: seq<Usage>) {
    && SameIdentity(before, after)
    && forall d: Direction ::
      && Mark(marks', member, before.identity, d) == Highest(before, Mark(marks, member, before.identity, d), member, samples, d)
      && Total(after, d) - Total(before, d) == Mark(marks', member, before.identity, d) - Mark(marks, member, before.identity, d)
  }

  predicate AllMerged(before: seq<Node>, after: seq<Node>, marks: Marks, marks': Marks, member: Member, samples: seq<Usage>) {
    && |after| == |before|
    && forall i :: 0 <= i < |before| ==>
      if before[i].entry == Some(member) then Merged(before[i], after[i], marks, marks', member, samples) else after[i] == before[i]
  }

  lemma MarksAfterNext(marks: Marks, users: seq<User>, member: Member, samples: seq<Usage>, i: nat)
    requires i < |samples|
    ensures MarksAfter(marks, users, member, samples[..i + 1])
         == if MatchedAny(users, member, samples[i]) then Raised(MarksAfter(marks, users, member, samples[..i]), member, samples[i])
            else MarksAfter(marks, users, member, samples[..i])
  {
    assert samples[..i + 1][..i] == samples[..i];
  }

  lemma NothingMerged(users: seq<User>, marks: Marks, member: Member)
    ensures MarksAfter(marks, users, member, []) == marks
    ensures forall k :: 0 <= k < |users| ==>
              && AllMerged(users[k].nodes, users[k].nodes, marks, marks, member, [])
              && SameNodes(users[k].nodes, users[k].nodes) && RisesTogether(users[k], users[k])
  {
  }

  /** No two nodes share a secret. */
  predicate DistinctIdentities(users: seq<User>) {
    forall k, l, i, j ::
      0 <= k < |users| && 0 <= l < |users| && 0 <= i < |users[k].nodes| && 0 <= j < |users[l].nodes| && (k != l || i != j) ==>
      users[k].nodes[i].identity != users[l].nodes[j].identity
  }

  predicate Distinct(users: seq<User>) {
    DistinctEverywhere(users) && DistinctIdentities(users)
  }

  predicate AllSame(before: seq<User>, after: seq<User>) {
    |after| == |before| && forall k :: 0 <= k < |before| ==> SameNodes(before[k].nodes, after[k].nodes) && RisesTogether(before[k], after[k])
  }

  lemma SameTwice(a: seq<User>, b: seq<User>, c: seq<User>)
    requires AllSame(a, b) && AllSame(b, c)
    ensures AllSame(a, c)
  {
    forall k | 0 <= k < |a|
      ensures SameNodes(a[k].nodes, c[k].nodes) && RisesTogether(a[k], c[k])
    {
      SameNodesTwice(a[k].nodes, b[k].nodes, c[k].nodes);
      RisesTwice(a[k], b[k], c[k]);
    }
  }

  lemma SameNodesTwice(a: seq<Node>, b: seq<Node>, c: seq<Node>)
    requires SameNodes(a, b) && SameNodes(b, c)
    ensures SameNodes(a, c)
  {
  }

  lemma RisesTwice(a: User, b: User, c: User)
    requires RisesTogether(a, b) && RisesTogether(b, c)
    ensures RisesTogether(a, c)
  {
    hide NodesTotal;
  }

  lemma SameMatched(before: seq<Node>, after: seq<Node>, member: Member, s: Usage)
    requires SameNodes(before, after)
    ensures Matched(before, member, s) <==> Matched(after, member, s)
  {
    if Matched(before, member, s) {
      var i :| 0 <= i < |before| && Matches(before[i], member, s);
      assert Matches(after[i], member, s);
    }
    if Matched(after, member, s) {
      var i :| 0 <= i < |after| && Matches(after[i], member, s);
      assert Matches(before[i], member, s);
    }
  }

  lemma SameMatchedAny(before: seq<User>, after: seq<User>, member: Member, s: Usage)
    requires AllSame(before, after)
    ensures MatchedAny(before, member, s) <==> MatchedAny(after, member, s)
  {
    hide Matched;
    hide SameNodes;
    hide RisesTogether;
    forall k | 0 <= k < |before|
      ensures Matched(before[k].nodes, member, s) <==> Matched(after[k].nodes, member, s)
    {
      SameMatched(before[k].nodes, after[k].nodes, member, s);
    }
  }

  lemma SameLogins(before: seq<User>, after: seq<User>)
    requires AllSame(before, after) && DistinctEverywhere(before)
    ensures DistinctEverywhere(after)
  {
    hide RisesTogether;
    forall k, l, i, j |
      0 <= k < |after| && 0 <= l < |after| && 0 <= i < |after[k].nodes| && 0 <= j < |after[l].nodes| && (k != l || i != j)
      ensures after[k].nodes[i].auth != after[l].nodes[j].auth
    {
      assert SameNodes(before[k].nodes, after[k].nodes) && SameNodes(before[l].nodes, after[l].nodes);
    }
  }

  /** One more sample of a node's own. */
  lemma OneMore(start: Node, n: Node, n': Node, m0: Marks, m1: Marks, m2: Marks, member: Member, samples: seq<Usage>, s: Usage)
    requires Merged(start, n, m0, m1, member, samples) && n' == After(n, m1, member, s)
    requires start.entry == Some(member)
    requires if Matches(start, member, s) then m2 == Raised(m1, member, s)
             else forall d: Direction :: Mark(m2, member, start.identity, d) == Mark(m1, member, start.identity, d)
    ensures Merged(start, n', m0, m2, member, samples + [s])
  {
    assert (samples + [s])[..|samples|] == samples;
    forall d: Direction
      ensures Mark(m2, member, start.identity, d) == Highest(start, Mark(m0, member, start.identity, d), member, samples + [s], d)
      ensures Total(n', d) - Total(start, d) == Mark(m2, member, start.identity, d) - Mark(m0, member, start.identity, d)
    {
      assert d == Upload || d == Download;
    }
  }

  /** A sample that is not the node's does not move its mark. */
  lemma OthersMark(users: seq<User>, k: nat, i: nat, marks: Marks, member: Member, s: Usage)
    requires DistinctIdentities(users) && k < |users| && i < |users[k].nodes|
    requires !Matches(users[k].nodes[i], member, s) && users[k].nodes[i].entry == Some(member)
    ensures var marks' := if MatchedAny(users, member, s) then Raised(marks, member, s) else marks;
            forall d: Direction :: Mark(marks', member, users[k].nodes[i].identity, d) == Mark(marks, member, users[k].nodes[i].identity, d)
  {
    OnlyMatch(users, k, i, member, s);
  }

  /** Whoever has a sample's identity is the one it matches, if it matches anyone. */
  lemma OnlyMatch(users: seq<User>, k: nat, i: nat, member: Member, s: Usage)
    requires DistinctIdentities(users) && k < |users| && i < |users[k].nodes|
    ensures MatchedAny(users, member, s) && users[k].nodes[i].identity == s.identity ==> Matches(users[k].nodes[i], member, s)
  {
    if MatchedAny(users, member, s) && users[k].nodes[i].identity == s.identity {
      var l :| 0 <= l < |users| && Matched(users[l].nodes, member, s);
      var j :| 0 <= j < |users[l].nodes| && Matches(users[l].nodes[j], member, s);
      assert l == k && j == i;
    }
  }

  lemma MergedNext(was: seq<User>, before: seq<User>, after: seq<User>, m0: Marks, m1: Marks, member: Member, samples: seq<Usage>, i: nat)
    requires i < |samples| && AllSame(was, before) && Distinct(was) && |after| == |before|
    requires forall k :: 0 <= k < |was| ==> AllMerged(was[k].nodes, before[k].nodes, m0, m1, member, samples[..i])
    requires forall k :: 0 <= k < |was| ==> AllAfter(before[k].nodes, after[k].nodes, m1, member, samples[i])
    ensures var m2 := if MatchedAny(was, member, samples[i]) then Raised(m1, member, samples[i]) else m1;
            forall k :: 0 <= k < |was| ==> AllMerged(was[k].nodes, after[k].nodes, m0, m2, member, samples[..i + 1])
  {
    hide Raised;
    hide MatchedAny;
    hide Merged;
    hide After;
    hide DistinctIdentities;
    hide DistinctEverywhere;
    hide RisesTogether;
    var s := samples[i];
    var m2 := if MatchedAny(was, member, s) then Raised(m1, member, s) else m1;
    assert samples[..i + 1] == samples[..i] + [s];
    forall k, j | 0 <= k < |was| && 0 <= j < |was[k].nodes| && was[k].nodes[j].entry == Some(member)
      ensures Merged(was[k].nodes[j], after[k].nodes[j], m0, m2, member, samples[..i + 1])
    {
      var n := was[k].nodes[j];
      assert AllMerged(was[k].nodes, before[k].nodes, m0, m1, member, samples[..i]);
      assert AllAfter(before[k].nodes, after[k].nodes, m1, member, s);
      if Matches(n, member, s) {
        MatchedHere(was, k, j, member, s);
      } else {
        OthersMark(was, k, j, m1, member, s);
      }
      OneMore(n, before[k].nodes[j], after[k].nodes[j], m0, m1, m2, member, samples[..i], s);
    }
    forall k | 0 <= k < |was|
      ensures AllMerged(was[k].nodes, after[k].nodes, m0, m2, member, samples[..i + 1])
    {
      assert AllAfter(before[k].nodes, after[k].nodes, m1, member, s);
      forall j | 0 <= j < |was[k].nodes| && was[k].nodes[j].entry != Some(member)
        ensures after[k].nodes[j] == was[k].nodes[j]
      {
        AfterOther(before[k].nodes[j], m1, member, s);
      }
    }
  }

  lemma AfterOther(n: Node, marks: Marks, member: Member, s: Usage)
    requires n.entry != Some(member)
    ensures After(n, marks, member, s) == n
  {
  }

  // ------------------------------------------------------------------------------------------
  // When a snapshot is accepted
  // ------------------------------------------------------------------------------------------

  /** What a node is charged for a snapshot. */
  function Rise(n: Node, marks: Marks, member: Member, samples: seq<Usage>, d: Direction): int {
    Highest(n, Mark(marks, member, n.identity, d), member, samples, d) - Mark(marks, member, n.identity, d)
  }

  function RiseTotal(nodes: seq<Node>, marks: Marks, member: Member, samples: seq<Usage>, d: Direction): int {
    if nodes == [] then 0
    else RiseTotal(nodes[..|nodes| - 1], marks, member, samples, d) + Rise(nodes[|nodes| - 1], marks, member, samples, d)
  }

  predicate UserFits(u: User, marks: Marks, member: Member, samples: seq<Usage>, d: Direction) {
    && UserTotal(u, d) + RiseTotal(u.nodes, marks, member, samples, d) <= MAX
    && forall i :: 0 <= i < |u.nodes| ==> Total(u.nodes[i], d) + Rise(u.nodes[i], marks, member, samples, d) <= MAX
  }

  /** With what the snapshot charges, all totals of users and nodes are in the range of the counters. */
  predicate Fits(users: seq<User>, marks: Marks, member: Member, samples: seq<Usage>) {
    forall k, d: Direction :: 0 <= k < |users| ==> UserFits(users[k], marks, member, samples, d)
  }

  lemma {:induction false} OthersDoNotRise(n: Node, start: int, member: Member, samples: seq<Usage>, d: Direction)
    requires n.entry != Some(member)
    ensures Highest(n, start, member, samples, d) == start
  {
    if samples != [] {
      OthersDoNotRise(n, start, member, samples[..|samples| - 1], d);
    }
  }

  lemma NodeRose(before: Node, after: Node, m0: Marks, m1: Marks, member: Member, samples: seq<Usage>, d: Direction)
    requires if before.entry == Some(member) then Merged(before, after, m0, m1, member, samples) else after == before
    ensures Total(after, d) == Total(before, d) + Rise(before, m0, member, samples, d)
  {
    if before.entry != Some(member) {
      OthersDoNotRise(before, Mark(m0, member, before.identity, d), member, samples, d);
    }
  }

  lemma {:induction false} NodesRose(before: seq<Node>, after: seq<Node>, m0: Marks, m1: Marks, member: Member, samples: seq<Usage>, d: Direction)
    requires AllMerged(before, after, m0, m1, member, samples)
    ensures NodesTotal(after, d) == NodesTotal(before, d) + RiseTotal(before, m0, member, samples, d)
    decreases |before|
  {
    if before != [] {
      var last := |before| - 1;
      NodesRose(before[..last], after[..last], m0, m1, member, samples, d);
      NodeRose(before[last], after[last], m0, m1, member, samples, d);
    }
  }

  lemma RisesMore(n: Node, marks: Marks, member: Member, a: seq<Usage>, b: seq<Usage>, d: Direction)
    ensures Rise(n, marks, member, a + b, d) >= Rise(n, marks, member, a, d)
  {
    var start := Mark(marks, member, n.identity, d);
    HighestOfBoth(n, start, member, a, b, d);
    HighestIsHighest(n, Highest(n, start, member, a, d), member, b, d);
  }

  /** More samples charge no less in all, and the difference of one node counts. */
  lemma {:induction false} TotalRisesMore(nodes: seq<Node>, marks: Marks, member: Member, a: seq<Usage>, b: seq<Usage>, d: Direction)
    ensures RiseTotal(nodes, marks, member, a + b, d) >= RiseTotal(nodes, marks, member, a, d)
    ensures forall i :: 0 <= i < |nodes| ==>
              RiseTotal(nodes, marks, member, a + b, d) - RiseTotal(nodes, marks, member, a, d)
              >= Rise(nodes[i], marks, member, a + b, d) - Rise(nodes[i], marks, member, a, d)
    decreases |nodes|
  {
    hide Rise;
    if nodes != [] {
      var last := |nodes| - 1;
      TotalRisesMore(nodes[..last], marks, member, a, b, d);
      RisesMore(nodes[last], marks, member, a, b, d);
      forall i | 0 <= i < |nodes|
        ensures RiseTotal(nodes, marks, member, a + b, d) - RiseTotal(nodes, marks, member, a, d)
             >= Rise(nodes[i], marks, member, a + b, d) - Rise(nodes[i], marks, member, a, d)
      {
        assert i < last ==> nodes[..last][i] == nodes[i];
      }
    }
  }

  /** A misfit stays one when more samples come. */
  lemma FitsLess(u: User, marks: Marks, member: Member, a: seq<Usage>, b: seq<Usage>, d: Direction)
    requires UserFits(u, marks, member, a + b, d)
    ensures UserFits(u, marks, member, a, d)
  {
    hide Rise;
    TotalRisesMore(u.nodes, marks, member, a, b, d);
    forall i | 0 <= i < |u.nodes|
      ensures Total(u.nodes[i], d) + Rise(u.nodes[i], marks, member, a, d) <= MAX
    {
      RisesMore(u.nodes[i], marks, member, a, b, d);
    }
  }

  /** A node that matches the next sample rises by its growth. */
  lemma RisesByGrowth(before: Node, n: Node, m0: Marks, m1: Marks, member: Member, a: seq<Usage>, s: Usage, d: Direction)
    requires Merged(before, n, m0, m1, member, a) && Matches(before, member, s)
    ensures Rise(before, m0, member, a + [s], d) == Rise(before, m0, member, a, d) + Growth(m1, member, s, d)
  {
    assert (a + [s])[..|a|] == a;
  }

  lemma TooMuchMisfits(was: User, u: User, m0: Marks, m1: Marks, member: Member, a: seq<Usage>, s: Usage, i: nat, d: Direction)
    requires AllMerged(was.nodes, u.nodes, m0, m1, member, a) && RisesTogether(was, u) && SameNodes(was.nodes, u.nodes)
    requires i < |u.nodes| && Matches(u.nodes[i], member, s) && TooMuch(u, i, m1, member, s, d)
    ensures !UserFits(was, m0, member, a + [s], d)
  {
    NodesRose(was.nodes, u.nodes, m0, m1, member, a, d);
    NodeRose(was.nodes[i], u.nodes[i], m0, m1, member, a, d);
    TotalRisesMore(was.nodes, m0, member, a, [s], d);
    RisesByGrowth(was.nodes[i], u.nodes[i], m0, m1, member, a, s, d);
    hide Rise;
    hide RiseTotal;
    hide NodesTotal;
    hide Growth;
    hide Merged;
  }

  lemma OverflowMisfits(was: seq<User>, before: seq<User>, m0: Marks, m1: Marks, member: Member, samples: seq<Usage>, i: nat)
    requires i < |samples| && AllSame(was, before)
    requires forall k :: 0 <= k < |was| ==> AllMerged(was[k].nodes, before[k].nodes, m0, m1, member, samples[..i])
    requires exists k :: 0 <= k < |before| && Overflows(before[k], m1, member, samples[i])
    ensures !Fits(was, m0, member, samples)
  {
    hide AllMerged;
    hide RisesTogether;
    hide SameNodes;
    hide UserFits;
    hide TooMuch;
    hide Matches;
    var s := samples[i];
    var k :| 0 <= k < |before| && Overflows(before[k], m1, member, s);
    var j, d: Direction :| 0 <= j < |before[k].nodes| && Matches(before[k].nodes[j], member, s) && TooMuch(before[k], j, m1, member, s, d);
    TooMuchMisfits(was[k], before[k], m0, m1, member, samples[..i], s, j, d);
    assert samples == samples[..i] + [s] + samples[i + 1..];
    if UserFits(was[k], m0, member, samples, d) {
      FitsLess(was[k], m0, member, samples[..i] + [s], samples[i + 1..], d);
    }
  }

  lemma MergedFits(was: seq<User>, after: seq<User>, m0: Marks, m1: Marks, member: Member, samples: seq<Usage>)
    requires AllSame(was, after) && AllInRange(after)
    requires forall k :: 0 <= k < |was| ==> AllMerged(was[k].nodes, after[k].nodes, m0, m1, member, samples)
    ensures Fits(was, m0, member, samples)
  {
    forall k, d: Direction | 0 <= k < |was|
      ensures UserFits(was[k], m0, member, samples, d)
    {
      UserMergedFits(was[k], after[k], m0, m1, member, samples, d);
    }
  }

  lemma UserMergedFits(was: User, after: User, m0: Marks, m1: Marks, member: Member, samples: seq<Usage>, d: Direction)
    requires RisesTogether(was, after) && InRange(after) && AllMerged(was.nodes, after.nodes, m0, m1, member, samples)
    ensures UserFits(was, m0, member, samples, d)
  {
    NodesRose(was.nodes, after.nodes, m0, m1, member, samples, d);
    forall i | 0 <= i < |was.nodes|
      ensures Total(was.nodes[i], d) + Rise(was.nodes[i], m0, member, samples, d) <= MAX
    {
      NodeRose(was.nodes[i], after.nodes[i], m0, m1, member, samples, d);
    }
  }

  lemma MatchedHere(users: seq<User>, k: nat, i: nat, member: Member, s: Usage)
    requires k < |users| && i < |users[k].nodes| && Matches(users[k].nodes[i], member, s)
    ensures MatchedAny(users, member, s)
  {
    assert Matched(users[k].nodes, member, s);
  }

  // ------------------------------------------------------------------------------------------
  // Any number of snapshots, in any order
  // ------------------------------------------------------------------------------------------

  lemma {:induction false} HighestOfBoth(n: Node, start: int, member: Member, a: seq<Usage>, b: seq<Usage>, d: Direction)
    ensures Highest(n, start, member, a + b, d) == Highest(n, Highest(n, start, member, a, d), member, b, d)
    decreases |b|
  {
    if b == [] {
      assert a + b == a;
    } else {
      assert (a + b)[..|a + b| - 1] == a + b[..|b| - 1];
      HighestOfBoth(n, start, member, a, b[..|b| - 1], d);
    }
  }

  /** Two snapshots in a row charge what one with all their samples would. */
  lemma MergedTwice(a: Node, b: Node, c: Node, m0: Marks, m1: Marks, m2: Marks, member: Member, s: seq<Usage>, t: seq<Usage>)
    requires Merged(a, b, m0, m1, member, s) && Merged(b, c, m1, m2, member, t) && a.entry == Some(member)
    ensures Merged(a, c, m0, m2, member, s + t)
  {
    hide Highest;
    forall d: Direction
      ensures Mark(m2, member, a.identity, d) == Highest(a, Mark(m0, member, a.identity, d), member, s + t, d)
      ensures Total(c, d) - Total(a, d) == Mark(m2, member, a.identity, d) - Mark(m0, member, a.identity, d)
    {
      HighestOfBoth(a, Mark(m0, member, a.identity, d), member, s, t, d);
      SameHighest(a, b, Mark(m1, member, a.identity, d), member, t, d);
    }
  }

  lemma {:induction false} SameHighest(a: Node, b: Node, start: int, member: Member, samples: seq<Usage>, d: Direction)
    requires SameIdentity(a, b)
    ensures Highest(a, start, member, samples, d) == Highest(b, start, member, samples, d)
  {
    if samples != [] {
      SameHighest(a, b, start, member, samples[..|samples| - 1], d);
    }
  }

  /** The highest value is the start or the value of a matching sample, and none is higher. */
  lemma {:induction false} HighestIsHighest(n: Node, start: int, member: Member, samples: seq<Usage>, d: Direction)
    ensures var h := Highest(n, start, member, samples, d);
            && h >= start
            && (forall s :: s in samples && Matches(n, member, s) ==> Value(s, d) <= h)
            && (h == start || exists s :: s in samples && Matches(n, member, s) && Value(s, d) == h)
  {
    if samples != [] {
      var front, s := samples[..|samples| - 1], samples[|samples| - 1];
      HighestIsHighest(n, start, member, front, d);
      assert forall x :: x in samples <==> x in front || x == s;
    }
  }

  /** Order and repetition of the samples do not matter: the same set of samples has the same highest value. */
  lemma SameSamplesSameHighest(n: Node, start: int, member: Member, a: seq<Usage>, b: seq<Usage>, d: Direction)
    requires forall s :: s in a <==> s in b
    ensures Highest(n, start, member, a, d) == Highest(n, start, member, b, d)
  {
    HighestIsHighest(n, start, member, a, d);
    HighestIsHighest(n, start, member, b, d);
  }

  /** What a node is charged over two histories of snapshots with the same samples is the same. */
  lemma SameSamplesSameCharge(n: Node, x: Node, y: Node, m0: Marks, mx: Marks, my: Marks, member: Member, a: seq<Usage>, b: seq<Usage>, d: Direction)
    requires Merged(n, x, m0, mx, member, a) && Merged(n, y, m0, my, member, b) && forall s :: s in a <==> s in b
    ensures Total(x, d) == Total(y, d)
  {
    SameSamplesSameHighest(n, Mark(m0, member, n.identity, d), member, a, b, d);
  }

  // ------------------------------------------------------------------------------------------
  // Rotating credentials between reports
  // ------------------------------------------------------------------------------------------

  datatype Report = Report(identity: Identity, value: nat)

  datatype Grant = Grant(sequence: nat, identity: Identity)

  /**
   One node in one direction: what the master knows and what its entry machine does. `peak` is the
   highest the machine's cumulative counter has ever been, `used` the identities given out so far.
   */
  datatype World = World(
    identity: Identity, charged: nat, marks: map<Identity, int>,
    installed: Identity, lease: nat, counter: nat, peak: nat,
    reports: set<Report>, grants: set<Grant>, used: set<Identity>, sequence: nat)

  datatype Step =
    | Traffic(bytes: nat)
    | RestoreSlave(counter: nat)
    | SendReport
    | ReceiveReport(report: Report)
    | SendGrant
    | ReceiveGrant(grant: Grant)
    | Rotate(secret: Identity)

  function IdentityMark(marks: map<Identity, int>, id: Identity): int {
    if id in marks then marks[id] else 0
  }

  /** A new secret is one never used before; messages in flight are received any number of times. */
  predicate Enabled(w: World, s: Step) {
    match s
    case ReceiveReport(r) => r in w.reports
    case ReceiveGrant(g) => g in w.grants
    case Rotate(id) => id !in w.used
    case _ => true
  }

  /** Rotation moves the mark to the new identity. A granted node keeps its machine's counter. */
  function Next(w: World, s: Step): World {
    match s
    case Traffic(bytes) => w.(counter := w.counter + bytes, peak := Max(w.peak, w.counter + bytes))
    case RestoreSlave(counter) => if counter < w.counter then w.(counter := counter) else w
    case SendReport => w.(reports := w.reports + {Report(w.installed, w.counter)})
    case ReceiveReport(r) =>
      if r.identity != w.identity then w
      else
        var before := IdentityMark(w.marks, r.identity);
        w.(charged := w.charged + Max(0, r.value - before), marks := w.marks[r.identity := Max(before, r.value)])
    case SendGrant => w.(grants := w.grants + {Grant(w.sequence + 1, w.identity)}, sequence := w.sequence + 1)
    case ReceiveGrant(g) => if g.sequence <= w.lease then w else w.(installed := g.identity, lease := g.sequence)
    case Rotate(id) =>
      var moved := if w.identity in w.marks then (w.marks - {w.identity})[id := w.marks[w.identity]] else w.marks;
      w.(identity := id, marks := moved, used := w.used + {id})
  }

  predicate AllEnabled(w: World, steps: seq<Step>)
    decreases |steps|
  {
    steps == [] || (AllEnabled(w, steps[..|steps| - 1]) && Enabled(Run(w, steps[..|steps| - 1]), steps[|steps| - 1]))
  }

  function Run(w: World, steps: seq<Step>): World
    decreases |steps|
  {
    if steps == [] then w else Next(Run(w, steps[..|steps| - 1]), steps[|steps| - 1])
  }

  function Start(id: Identity): World {
    World(id, 0, map[], id, 0, 0, 0, {}, {}, {id}, 0)
  }

  /** The mark of the current identity is what was charged, and nothing reported exceeds what was measured. */
  predicate Inv(w: World) {
    && w.charged == IdentityMark(w.marks, w.identity) && w.charged <= w.peak && w.counter <= w.peak
    && w.identity in w.used && w.marks.Keys <= w.used
    && (forall r :: r in w.reports ==> r.value <= w.peak)
  }

  lemma NextKeepsInv(w: World, s: Step)
    requires Inv(w) && Enabled(w, s)
    ensures Inv(Next(w, s))
  {
  }

  lemma {:induction false} RunKeepsInv(id: Identity, steps: seq<Step>)
    requires AllEnabled(Start(id), steps)
    ensures Inv(Run(Start(id), steps))
  {
    hide Next;
    hide Enabled;
    hide Inv;
    if steps == [] {
      StartInv(id);
    } else {
      RunKeepsInv(id, steps[..|steps| - 1]);
      NextKeepsInv(Run(Start(id), steps[..|steps| - 1]), steps[|steps| - 1]);
    }
  }

  lemma StartInv(id: Identity)
    ensures Inv(Start(id))
  {
  }

  /**
   However rotations, grants and reports interleave, the master never charges more than the machine
   measured, and a report under the current identity brings the charge up to the reported counter.
   */
  lemma RotationNeverOvercharges(id: Identity, steps: seq<Step>, r: Report)
    requires AllEnabled(Start(id), steps)
    ensures var w := Run(Start(id), steps);
            && w.charged <= w.peak
            && (r in w.reports && r.identity == w.identity ==> Next(w, ReceiveReport(r)).charged == Max(w.charged, r.value))
  {
    RunKeepsInv(id, steps);
    hide Run;
  }

  /** The machine has what the newest grant it received says, or what it began with; no two grants have one number. */
  predicate Leased(w: World, id: Identity) {
    && (if w.lease == 0 then w.installed == id else Grant(w.lease, w.installed) in w.grants)
    && w.lease <= w.sequence && (forall g :: g in w.grants ==> 0 < g.sequence <= w.sequence)
    && (forall g, h :: g in w.grants && h in w.grants && g.sequence == h.sequence ==> g == h)
  }

  /**
   However late, repeated or out of order the grants arrive, the machine follows the newest it has
   received: an older one changes nothing, a newer one is installed, and the next one the master
   sends always is.
   */
  lemma {:induction false} NewestGrantHolds(id: Identity, steps: seq<Step>, g: Grant)
    requires AllEnabled(Start(id), steps)
    ensures var w := Run(Start(id), steps);
            && Leased(w, id)
            && (g.sequence <= w.lease ==> Next(w, ReceiveGrant(g)) == w)
            && (g.sequence > w.lease ==> var w' := Next(w, ReceiveGrant(g)); w'.installed == g.identity && w'.lease == g.sequence)
            && var sent := Next(w, SendGrant);
               exists next :: next in sent.grants && next.identity == w.identity && next.sequence > w.lease && next.sequence == sent.sequence
  {
    var w := Run(Start(id), steps);
    if steps != [] {
      NewestGrantHolds(id, steps[..|steps| - 1], g);
      GrantsStayLeased(Run(Start(id), steps[..|steps| - 1]), id, steps[|steps| - 1]);
    }
    hide Run;
    assert Grant(w.sequence + 1, w.identity) in Next(w, SendGrant).grants;
  }

  lemma GrantsStayLeased(w: World, id: Identity, s: Step)
    requires Leased(w, id) && Enabled(w, s)
    ensures Leased(Next(w, s), id)
  {
  }

  /**
   The first report after the machine has the current identity charges at least what its counter shows,
   and exactly that if the counter was not restored to less than it has been.
   */
  lemma MatchingReportCatchesUp(id: Identity, steps: seq<Step>)
    requires AllEnabled(Start(id), steps) && Run(Start(id), steps).installed == Run(Start(id), steps).identity
    ensures var w := Next(Run(Start(id), steps), SendReport);
            var w' := Next(w, ReceiveReport(Report(w.installed, w.counter)));
            && Report(w.installed, w.counter) in w.reports
            && w'.charged >= w.counter && (w.counter == w.peak ==> w'.charged == w.counter)
  {
    RunKeepsInv(id, steps);
    hide Run;
  }

  /** From then on every byte is charged once it is reported, no matter how the reports before it got lost. */
  lemma TrafficIsCharged(id: Identity, steps: seq<Step>, bytes: nat)
    requires AllEnabled(Start(id), steps) && Run(Start(id), steps).installed == Run(Start(id), steps).identity
    requires Run(Start(id), steps).counter == Run(Start(id), steps).peak
    ensures var w := Run(Start(id), steps);
            Next(Next(Next(w, Traffic(bytes)), SendReport), ReceiveReport(Report(w.installed, w.counter + bytes))).charged == w.counter + bytes
  {
    RunKeepsInv(id, steps);
    hide Run;
  }

  /** The run is about this node of the master in this direction. */
  predicate IsAbout(w: World, n: Node, marks: Marks, member: Member, d: Direction) {
    w.identity == n.identity && w.charged == Total(n, d) && IdentityMark(w.marks, n.identity) == Mark(marks, member, n.identity, d)
  }

  /** Receiving a report is what merging a sample does to the node it names, be it of the current identity or an old one. */
  lemma ReportIsMerged(w: World, n: Node, n': Node, marks: Marks, marks': Marks, member: Member, s: Usage, d: Direction)
    requires IsAbout(w, n, marks, member, d) && WellFormed(s) && n.entry == Some(member) && n.auth == s.auth
    requires Merged(n, n', marks, marks', member, [s])
    ensures IsAbout(Next(w, ReceiveReport(Report(s.identity, Value(s, d)))), n', marks', member, d)
  {
    assert [s][..0] == [];
    assert Highest(n, Mark(marks, member, n.identity, d), member, [s], d)
        == if Matches(n, member, s) then Max(Mark(marks, member, n.identity, d), Value(s, d)) else Mark(marks, member, n.identity, d);
  }
}
