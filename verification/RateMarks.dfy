/** Firewall marks of nodes: a fixed prefix and a number from 1 to 65535. */
module RateMarks {

  type Mark = nat

  const PREFIX := 0x5342_0000
  const CAPACITY := 0xffff

  predicate ValidMark(m: Mark) {
    m / 0x1_0000 == PREFIX / 0x1_0000 && m % 0x1_0000 != 0
  }

  function MarkOf(id: nat): Mark {
    PREFIX + id
  }

  lemma ValidIsNumbered(m: Mark)
    ensures ValidMark(m) <==> PREFIX < m <= PREFIX + CAPACITY
  {
  }

  /** The marks in use: of users, and of the nodes that have a valid one. */
  function Used(userMarks: seq<Mark>, nodes: seq<Mark>): set<Mark> {
    set m | m in userMarks + nodes && ValidMark(m)
  }

  function Missing(nodes: seq<Mark>): nat {
    if nodes == [] then 0 else Missing(nodes[..|nodes| - 1]) + if ValidMark(nodes[|nodes| - 1]) then 0 else 1
  }

  predicate AllValid(nodes: seq<Mark>) {
    forall i :: 0 <= i < |nodes| ==> ValidMark(nodes[i])
  }

  /** No two nodes with valid marks share one. */
  predicate DistinctValid(nodes: seq<Mark>) {
    forall i, j :: 0 <= i < j < |nodes| && ValidMark(nodes[i]) && ValidMark(nodes[j]) ==> nodes[i] != nodes[j]
  }

  /** Numbers below `id` that are all taken are that many marks. */
  lemma {:induction false} TakenCount(used: set<Mark>, id: nat)
    requires id >= 1 && forall k :: 1 <= k < id ==> MarkOf(k) in used
    ensures id - 1 <= |used|
    decreases id
  {
    if id > 1 {
      var rest := used - {MarkOf(id - 1)};
      forall k | 1 <= k < id - 1
        ensures MarkOf(k) in rest
      {
        assert MarkOf(k) in used;
      }
      TakenCount(rest, id - 1);
    }
  }

  lemma MissingLast(nodes: seq<Mark>)
    requires nodes != []
    ensures Missing(nodes) == Missing(nodes[..|nodes| - 1]) + if ValidMark(nodes[|nodes| - 1]) then 0 else 1
  {
  }

  lemma {:induction false} MissingSplits(nodes: seq<Mark>, i: nat)
    requires i <= |nodes|
    ensures Missing(nodes) == Missing(nodes[..i]) + Missing(nodes[i..])
    decreases |nodes|
  {
    if i == |nodes| {
      assert nodes[..i] == nodes && nodes[i..] == [];
    } else {
      hide Missing;
      hide ValidMark;
      var last := |nodes| - 1;
      MissingSplits(nodes[..last], i);
      MissingLast(nodes);
      MissingLast(nodes[i..]);
      assert nodes[..last][..i] == nodes[..i];
      assert nodes[..last][i..] == nodes[i..][..|nodes[i..]| - 1];
    }
  }

  lemma MissingFirst(nodes: seq<Mark>, i: nat)
    requires i < |nodes|
    ensures Missing(nodes[i..]) == Missing(nodes[i + 1..]) + if ValidMark(nodes[i]) then 0 else 1
  {
    hide ValidMark;
    MissingSplits(nodes[i..], 1);
    assert nodes[i..][..1] == [nodes[i]];
    assert nodes[i..][1..] == nodes[i + 1..];
    assert Missing([nodes[i]]) == if ValidMark(nodes[i]) then 0 else 1 by { assert [nodes[i]][..0] == []; }
  }

  /** Counts the marks in use and the nodes without one. */
  method Survey(userMarks: seq<Mark>, nodes: array<Mark>) returns (used: set<Mark>, missing: nat)
    ensures used == Used(userMarks, nodes[..]) && missing == Missing(nodes[..])
  {
    hide ValidMark;
    hide Used;
    NothingUsed();
    used := {};
    for i := 0 to |userMarks|
      invariant used == Used(userMarks[..i], [])
    {
      UsedNext(userMarks[..i], [], userMarks[i]);
      assert userMarks[..i + 1] == userMarks[..i] + [userMarks[i]];
      if ValidMark(userMarks[i]) {
        used := used + {userMarks[i]};
      }
    }
    assert userMarks[..|userMarks|] == userMarks;
    missing := 0;
    assert nodes[..0] == [];
    for i := 0 to nodes.Length
      invariant used == Used(userMarks, nodes[..i]) && missing == Missing(nodes[..i])
    {
      UsedNextNode(userMarks, nodes[..i], nodes[i]);
      assert nodes[..i + 1] == nodes[..i] + [nodes[i]];
      assert nodes[..i + 1][..i] == nodes[..i];
      if ValidMark(nodes[i]) {
        used := used + {nodes[i]};
      } else {
        missing := missing + 1;
      }
    }
    assert nodes[..nodes.Length] == nodes[..];
  }

  predicate AllTaken(used: set<Mark>, id: nat) {
    forall k :: 1 <= k < id ==> MarkOf(k) in used
  }

  /** The next free number, which is in range because fewer marks than the capacity are in use. */
  method NextFree(used: set<Mark>, start: nat) returns (id: nat)
    requires start >= 1 && AllTaken(used, start) && |used| < CAPACITY
    ensures start <= id <= CAPACITY && AllTaken(used, id) && MarkOf(id) !in used
  {
    id := start;
    while MarkOf(id) in used
      invariant id >= start && AllTaken(used, id)
      decreases CAPACITY + 1 - id
    {
      TakenCount(used, id + 1);
      id := id + 1;
    }
    TakenCount(used, id);
  }

  /**
   Gives every node a mark. It fails exactly when the marks in use and the nodes without one exceed
   the capacity; otherwise the search always finds a free number in range.
   */
  method EnsureNodeMarks(userMarks: seq<Mark>, nodes: array<Mark>) returns (ok: bool, changed: bool)
    modifies nodes
    ensures ok <==> |Used(userMarks, old(nodes[..]))| + Missing(old(nodes[..])) <= CAPACITY
    ensures !ok ==> nodes[..] == old(nodes[..])
    ensures ok ==> AllValid(nodes[..]) && (changed <==> Missing(old(nodes[..])) > 0)
    ensures ok ==> forall i :: 0 <= i < nodes.Length && ValidMark(old(nodes[i])) ==> nodes[i] == old(nodes[i])
    ensures ok ==> forall i :: 0 <= i < nodes.Length && !ValidMark(old(nodes[i])) ==> nodes[i] !in Used(userMarks, old(nodes[..]))
    ensures ok && DistinctValid(old(nodes[..])) ==> forall i, j :: 0 <= i < j < nodes.Length ==> nodes[i] != nodes[j]
  {
    hide ValidMark;
    hide Used;
    hide Missing;
    hide AllTaken;
    ghost var was := nodes[..];
    var used, missing := Survey(userMarks, nodes);
    if |used| + missing > CAPACITY {
      return false, false;
    }
    changed := missing > 0;
    ghost var start := used;
    var id := 1;
    NoneTaken(used);
    assert was[0..] == was;
    for i := 0 to nodes.Length
      invariant forall k :: i <= k < nodes.Length ==> nodes[k] == was[k]
      invariant start <= used && |used| + Missing(was[i..]) <= CAPACITY
      invariant id >= 1 && AllTaken(used, id)
      invariant forall j :: 0 <= j < i ==> ValidMark(nodes[j]) && nodes[j] in used
      invariant forall j :: 0 <= j < i && ValidMark(was[j]) ==> nodes[j] == was[j]
      invariant forall j :: 0 <= j < i && !ValidMark(was[j]) ==> nodes[j] !in start
      invariant DistinctValid(was) ==> forall j, k :: 0 <= j < k < i ==> nodes[j] != nodes[k]
    {
      MissingFirst(was, i);
      if ValidMark(nodes[i]) {
        ValidIsUsed(userMarks, was, i);
        continue;
      }
      id := NextFree(used, id);
      ValidIsNumbered(MarkOf(id));
      TakenStill(used, id);
      nodes[i] := MarkOf(id);
      used := used + {MarkOf(id)};
    }
    ok := true;
  }

  lemma NothingUsed()
    ensures Used([], []) == {}
  {
  }

  lemma NoneTaken(used: set<Mark>)
    ensures AllTaken(used, 1)
  {
  }

  lemma TakenStill(used: set<Mark>, id: nat)
    requires AllTaken(used, id)
    ensures AllTaken(used + {MarkOf(id)}, id)
  {
  }

  lemma ValidIsUsed(userMarks: seq<Mark>, nodes: seq<Mark>, i: nat)
    requires i < |nodes| && ValidMark(nodes[i])
    ensures nodes[i] in Used(userMarks, nodes)
  {
  }

  lemma UsedNext(userMarks: seq<Mark>, nodes: seq<Mark>, m: Mark)
    ensures Used(userMarks + [m], nodes) == Used(userMarks, nodes) + if ValidMark(m) then {m} else {}
  {
  }

  lemma UsedNextNode(userMarks: seq<Mark>, nodes: seq<Mark>, m: Mark)
    ensures Used(userMarks, nodes + [m]) == Used(userMarks, nodes) + if ValidMark(m) then {m} else {}
  {
  }
}
