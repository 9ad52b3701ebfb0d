/**
 Active connections and the indexed heap that evicts the ones seen longest ago.

 Times are compared as the stored texts compare; here they are the ranks of that order. The index
 may fall behind the connections when one is closed or gets its source attached late.
 */
module ConnectionHeap {

  type Id = string
  type Seen = int

  const LIMIT := 4096

  datatype Entry = Entry(id: Id, seen: Seen)

  datatype Connection = Connection(id: Id, lastSeen: Seen, source: string)

  function Parent(k: nat): nat
    requires k > 0
  {
    (k - 1) / 2
  }

  /** The entry at `k` is not older than its parent. */
  predicate Ok(s: seq<Entry>, k: nat)
    requires k < |s|
  {
    k == 0 || s[Parent(k)].seen <= s[k].seen
  }

  predicate Ordered(s: seq<Entry>, n: nat)
    requires n <= |s|
  {
    forall k :: 0 <= k < n ==> Ok(s, k)
  }

  /** Ordered but for `j` and its parent; the parent is still not newer than the children of `j`. */
  predicate OrderedAbove(s: seq<Entry>, n: nat, j: nat)
    requires j < n <= |s|
  {
    && (forall k :: 0 <= k < n && k != j ==> Ok(s, k))
    && (forall k :: 0 < k < n && Parent(k) == j && j > 0 ==> s[Parent(j)].seen <= s[k].seen)
  }

  /** Ordered but for `i` and its children; its parent is not newer than them. */
  predicate OrderedBelow(s: seq<Entry>, n: nat, i: nat)
    requires i <= n <= |s|
  {
    && (forall k :: 0 <= k < n && (k == 0 || Parent(k) != i) ==> Ok(s, k))
    && (forall k :: 0 < k < n && Parent(k) == i && i > 0 ==> s[Parent(i)].seen <= s[k].seen)
  }

  /** Ordered but for `i`, its parent and its children. */
  predicate OrderedAround(s: seq<Entry>, n: nat, i: nat)
    requires i < n <= |s|
  {
    && (forall k :: 0 <= k < n && k != i && (k == 0 || Parent(k) != i) ==> Ok(s, k))
    && (forall k :: 0 < k < n && Parent(k) == i && i > 0 ==> s[Parent(i)].seen <= s[k].seen)
  }

  predicate Indexed(s: seq<Entry>, indices: map<Id, nat>) {
    && (forall k :: 0 <= k < |s| ==> s[k].id in indices && indices[s[k].id] == k)
    && (forall id :: id in indices ==> indices[id] < |s| && s[indices[id]].id == id)
  }

  /** What the heap holds, without its order. */
  function Contents(s: seq<Entry>, indices: map<Id, nat>): map<Id, Seen>
    requires Indexed(s, indices)
  {
    map id | id in indices :: s[indices[id]].seen
  }

  function Swapped(s: seq<Entry>, i: nat, j: nat): seq<Entry>
    requires i < |s| && j < |s|
  {
    s[i := s[j]][j := s[i]]
  }

  function SwappedIndices(s: seq<Entry>, indices: map<Id, nat>, i: nat, j: nat): map<Id, nat>
    requires i < |s| && j < |s|
  {
    indices[s[j].id := i][s[i].id := j]
  }

  lemma SwapKeepsContents(s: seq<Entry>, indices: map<Id, nat>, i: nat, j: nat)
    requires Indexed(s, indices) && i < |s| && j < |s|
    ensures Indexed(Swapped(s, i, j), SwappedIndices(s, indices, i, j))
    ensures Contents(Swapped(s, i, j), SwappedIndices(s, indices, i, j)) == Contents(s, indices)
  {
  }

  lemma SwapUp(s: seq<Entry>, n: nat, j: nat)
    requires 0 < j < n <= |s| && OrderedAbove(s, n, j) && s[j].seen < s[Parent(j)].seen
    ensures OrderedAbove(Swapped(s, Parent(j), j), n, Parent(j))
  {
    var t := Swapped(s, Parent(j), j);
    forall k | 0 <= k < n && k != Parent(j)
      ensures Ok(t, k)
    {
      if k > 0 && k != j {
        assert Ok(s, k);
        assert Ok(s, Parent(j));
      }
    }
    forall k | 0 < k < n && Parent(k) == Parent(j) && Parent(j) > 0
      ensures t[Parent(Parent(j))].seen <= t[k].seen
    {
      assert Ok(s, Parent(j)) && (k != j ==> Ok(s, k));
    }
  }

  lemma SwapDown(s: seq<Entry>, n: nat, i: nat, c: nat)
    requires i < c < n <= |s| && Parent(c) == i && OrderedBelow(s, n, i) && s[c].seen < s[i].seen
    requires forall k :: 0 < k < n && Parent(k) == i ==> s[c].seen <= s[k].seen
    ensures OrderedBelow(Swapped(s, i, c), n, c)
  {
    var t := Swapped(s, i, c);
    forall k | 0 <= k < n && (k == 0 || Parent(k) != c)
      ensures Ok(t, k)
    {
      if k > 0 && Parent(k) != i {
        assert Ok(s, k);
      }
    }
    forall k | 0 < k < n && Parent(k) == c
      ensures t[Parent(c)].seen <= t[k].seen
    {
      assert Ok(s, k);
    }
  }

  lemma {:induction false} RootIsOldest(s: seq<Entry>, n: nat, k: nat)
    requires 0 < n <= |s| && Ordered(s, n) && k < n
    ensures s[0].seen <= s[k].seen
  {
    if k > 0 {
      assert Ok(s, k);
      RootIsOldest(s, n, Parent(k));
    }
  }

  lemma HeldKeys(s: seq<Entry>, indices: map<Id, nat>)
    requires Indexed(s, indices)
    ensures Contents(s, indices).Keys == indices.Keys
  {
  }

  class Heap {
    var entries: seq<Entry>
    var indices: map<Id, nat>

    ghost predicate Valid()
      reads this
    {
      Indexed(entries, indices) && Ordered(entries, |entries|)
    }

    ghost function Held(): map<Id, Seen>
      requires Indexed(entries, indices)
      reads this
    {
      Contents(entries, indices)
    }

    constructor ()
      ensures Valid() && entries == [] && Held() == map[]
    {
      entries, indices := [], map[];
    }

    method Swap(i: nat, j: nat)
      requires Indexed(entries, indices) && i < |entries| && j < |entries|
      modifies this
      ensures Indexed(entries, indices) && Held() == old(Held())
      ensures entries == Swapped(old(entries), i, j)
    {
      SwapKeepsContents(entries, indices, i, j);
      entries, indices := Swapped(entries, i, j), SwappedIndices(entries, indices, i, j);
    }

    /** Moves an entry towards the root until it is in order. */
    method Up(start: nat, n: nat)
      requires Indexed(entries, indices) && start < n <= |entries| && OrderedAbove(entries, n, start)
      modifies this
      ensures Indexed(entries, indices) && Held() == old(Held()) && |entries| == |old(entries)|
      ensures Ordered(entries, n) && forall k :: n <= k < |entries| ==> entries[k] == old(entries)[k]
    {
      hide Contents;
      hide Indexed;
      var j := start;
      while j > 0 && entries[j].seen < entries[Parent(j)].seen
        invariant |entries| == |old(entries)| && 0 <= j < n
        invariant Indexed(entries, indices) && Held() == old(Held())
        invariant OrderedAbove(entries, n, j)
        invariant forall k :: n <= k < |entries| ==> entries[k] == old(entries)[k]
      {
        SwapUp(entries, n, j);
        Swap(Parent(j), j);
        j := Parent(j);
      }
    }

    /** Moves an entry away from the root until it is in order; tells whether it moved. */
    method Down(start: nat, n: nat) returns (moved: bool)
      requires Indexed(entries, indices) && start <= n <= |entries|
      requires start < n ==> OrderedAround(entries, n, start)
      modifies this
      ensures Indexed(entries, indices) && Held() == old(Held()) && |entries| == |old(entries)|
      ensures forall k :: n <= k < |entries| ==> entries[k] == old(entries)[k]
      ensures moved ==> Ordered(entries, n)
      ensures !moved ==> entries == old(entries) && (start < n ==> OrderedAbove(entries, n, start))
    {
      hide Contents;
      hide Indexed;
      hide Ordered;
      hide OrderedAbove;
      hide OrderedAround;
      hide OrderedBelow;
      hide Ok;
      var i := start;
      while true
        invariant start <= i <= n && |entries| == |old(entries)|
        invariant Indexed(entries, indices) && Held() == old(Held())
        invariant i == start ==> entries == old(entries)
        invariant i > start ==> i < n && OrderedBelow(entries, n, i) && Ok(entries, i)
        invariant forall k :: n <= k < |entries| ==> entries[k] == old(entries)[k]
        decreases n - i
      {
        var j := 2 * i + 1;
        if j >= n {
          break;
        }
        if j + 1 < n && entries[j + 1].seen < entries[j].seen {
          j := j + 1;
        }
        if entries[j].seen >= entries[i].seen {
          break;
        }
        OlderChild(entries, n, i, j);
        if i == start {
          SwapFirst(entries, n, i, j);
        } else {
          SwapDown(entries, n, i, j);
        }
        Swap(i, j);
        i := j;
      }
      moved := i > start;
      Settled(entries, n, i);
    }

    method Push(e: Entry)
      requires Valid() && e.id !in indices
      modifies this
      ensures Valid() && Held() == old(Held())[e.id := e.seen]
      ensures |entries| == |old(entries)| + 1
    {
      PushKeepsIndex(entries, indices, e);
      indices := indices[e.id := |entries|];
      entries := entries + [e];
      assert OrderedAbove(entries, |entries|, |entries| - 1) by { PushedLast(old(entries), e); }
      Up(|entries| - 1, |entries|);
    }

    /** Takes out the entry seen longest ago. */
    method Pop() returns (e: Entry)
      requires Valid() && entries != []
      modifies this
      ensures Valid() && |entries| == |old(entries)| - 1
      ensures e.id in old(Held()) && old(Held())[e.id] == e.seen && Held() == old(Held()) - {e.id}
      ensures forall id :: id in old(Held()) ==> e.seen <= old(Held())[id]
    {
      ghost var before := entries;
      var n := |entries| - 1;
      OldestIsRoot(entries, indices);
      Swap(0, n);
      RootReplaced(before, entries, n);
      var moved := Down(0, n);
      if !moved && n > 0 {
        OrderedAtRoot(entries, n);
      }
      e := entries[n];
      PopKeepsIndex(entries, indices, n);
      entries := entries[..n];
      indices := indices - {e.id};
    }

    /** Puts a changed entry back in order. */
    method Fix(i: nat)
      requires Indexed(entries, indices) && i < |entries| && OrderedAround(entries, |entries|, i)
      modifies this
      ensures Valid() && Held() == old(Held()) && |entries| == |old(entries)|
    {
      var moved := Down(i, |entries|);
      if !moved {
        Up(i, |entries|);
      }
    }
  }

  lemma OlderChild(s: seq<Entry>, n: nat, i: nat, c: nat)
    requires i < n <= |s| && c < n && (c == 2 * i + 1 || c == 2 * i + 2)
    requires c == 2 * i + 1 && c + 1 < n ==> s[c].seen <= s[c + 1].seen
    requires c == 2 * i + 2 ==> s[c].seen < s[c - 1].seen
    ensures Parent(c) == i && forall k :: 0 < k < n && Parent(k) == i ==> s[c].seen <= s[k].seen
  {
    assert forall k :: k > 0 && Parent(k) == i ==> k == 2 * i + 1 || k == 2 * i + 2;
  }

  lemma SwapFirst(s: seq<Entry>, n: nat, i: nat, c: nat)
    requires i < c < n <= |s| && Parent(c) == i && OrderedAround(s, n, i) && s[c].seen < s[i].seen
    requires forall k :: 0 < k < n && Parent(k) == i ==> s[c].seen <= s[k].seen
    ensures OrderedBelow(Swapped(s, i, c), n, c) && Ok(Swapped(s, i, c), c)
  {
    var t := Swapped(s, i, c);
    forall k | 0 <= k < n && (k == 0 || Parent(k) != c)
      ensures Ok(t, k)
    {
      if k > 0 && k != i && Parent(k) != i {
        assert Ok(s, k);
      }
    }
    forall k | 0 < k < n && Parent(k) == c
      ensures t[Parent(c)].seen <= t[k].seen
    {
      assert Ok(s, k);
    }
  }

  /** Where the way down ends, everything below is in order. */
  lemma Settled(s: seq<Entry>, n: nat, i: nat)
    requires i <= n <= |s|
    ensures (2 * i + 1 >= n || (s[2 * i + 1].seen >= s[i].seen && (2 * i + 2 < n ==> s[2 * i + 2].seen >= s[i].seen))) ==>
              && (OrderedBelow(s, n, i) ==> Ordered(s, n))
              && (i < n && OrderedAround(s, n, i) ==> OrderedAbove(s, n, i))
  {
    assert forall k :: k > 0 && Parent(k) == i ==> k == 2 * i + 1 || k == 2 * i + 2;
  }

  lemma PushKeepsIndex(s: seq<Entry>, indices: map<Id, nat>, e: Entry)
    requires Indexed(s, indices) && e.id !in indices
    ensures Indexed(s + [e], indices[e.id := |s|])
    ensures Contents(s + [e], indices[e.id := |s|]) == Contents(s, indices)[e.id := e.seen]
  {
  }

  lemma PushedLast(s: seq<Entry>, e: Entry)
    requires Ordered(s, |s|)
    ensures OrderedAbove(s + [e], |s| + 1, |s|)
  {
    forall k | 0 <= k < |s|
      ensures Ok(s + [e], k)
    {
      assert Ok(s, k);
    }
  }

  lemma OldestIsRoot(s: seq<Entry>, indices: map<Id, nat>)
    requires Indexed(s, indices) && s != [] && Ordered(s, |s|)
    ensures forall id :: id in Contents(s, indices) ==> s[0].seen <= Contents(s, indices)[id]
  {
    forall id | id in indices
      ensures s[0].seen <= s[indices[id]].seen
    {
      RootIsOldest(s, |s|, indices[id]);
    }
  }

  lemma RootReplaced(s: seq<Entry>, t: seq<Entry>, n: nat)
    requires |s| == n + 1 && Ordered(s, n + 1) && t == Swapped(s, 0, n)
    ensures n > 0 ==> OrderedAround(t, n, 0)
    ensures t[n] == s[0]
  {
    forall k | 0 <= k < n && k != 0 && Parent(k) != 0
      ensures Ok(t, k)
    {
      assert Ok(s, k);
    }
  }

  lemma OrderedAtRoot(s: seq<Entry>, n: nat)
    requires 0 < n <= |s| && OrderedAbove(s, n, 0)
    ensures Ordered(s, n)
  {
  }

  lemma PopKeepsIndex(s: seq<Entry>, indices: map<Id, nat>, n: nat)
    requires |s| == n + 1 && Indexed(s, indices)
    ensures Indexed(s[..n], indices - {s[n].id})
    ensures Contents(s[..n], indices - {s[n].id}) == Contents(s, indices) - {s[n].id}
    ensures Ordered(s, n) ==> Ordered(s[..n], n)
  {
    if Ordered(s, n) {
      forall k | 0 <= k < n
        ensures Ok(s[..n], k)
      {
        assert Ok(s, k);
      }
    }
  }

  // ------------------------------------------------------------------------------------------
  // Tracking
  // ------------------------------------------------------------------------------------------

  function LastSeens(connections: map<Id, Connection>): map<Id, Seen> {
    map id | id in connections :: connections[id].lastSeen
  }

  /**
   What is left of `all` when entries were evicted from an index with the times `held`: nothing new or
   changed, and nobody who is kept has an older entry than somebody who is gone.
   */
  predicate OldestEvicted(held: map<Id, Seen>, all: map<Id, Connection>, kept: map<Id, Connection>) {
    && kept.Keys <= all.Keys <= held.Keys && (forall id :: id in kept ==> kept[id] == all[id])
    && forall gone, id :: gone in all && gone !in kept && id in kept ==> held[gone] <= held[id]
  }

  /** The entries left are the newest of those there were. */
  predicate Newest(held: map<Id, Seen>, left: map<Id, Seen>) {
    && left.Keys <= held.Keys && (forall id :: id in left ==> left[id] == held[id])
    && forall gone, id :: gone in held && gone !in left && id in left ==> held[gone] <= held[id]
  }

  /** No identifier is missing from the index, so the connections are no more than the entries. */
  lemma CoveredCount(connections: map<Id, Connection>, s: seq<Entry>, indices: map<Id, nat>)
    requires Indexed(s, indices) && connections.Keys <= indices.Keys
    ensures |connections| <= |s|
  {
    IdsAreFew(s, |s|);
    assert connections.Keys <= (set k | 0 <= k < |s| :: s[k].id);
    SubsetIsSmaller(connections.Keys, set k | 0 <= k < |s| :: s[k].id);
  }

  lemma {:induction false} IdsAreFew(s: seq<Entry>, n: nat)
    requires n <= |s|
    ensures |set k | 0 <= k < n :: s[k].id| <= n
  {
    if n > 0 {
      IdsAreFew(s, n - 1);
      assert (set k | 0 <= k < n :: s[k].id) == (set k | 0 <= k < n - 1 :: s[k].id) + {s[n - 1].id};
    }
  }

  lemma {:induction false} SubsetIsSmaller(a: set<Id>, b: set<Id>)
    requires a <= b
    ensures |a| <= |b|
  {
    if a != {} {
      var x :| x in a;
      SubsetIsSmaller(a - {x}, b - {x});
    }
  }

  class Tracker {
    var connections: map<Id, Connection>
    var index: Heap?

    /** The index, when there is one, is a heap that names every connection. */
    ghost predicate Valid()
      reads this, index
    {
      index != null ==> index.Valid() && connections.Keys <= index.indices.Keys
    }

    /** The index holds exactly the connections with the times they were last seen. */
    ghost predicate Exact()
      reads this, index
    {
      index != null ==> index.Valid() && index.Held() == LastSeens(connections)
    }

    constructor ()
      ensures Valid() && Exact() && connections == map[]
    {
      connections, index := map[], null;
    }

    /** Builds the index from the connections when there is none. */
    method EnsureIndex() returns (h: Heap)
      requires Valid()
      modifies this`index
      ensures Valid() && index == h && connections == old(connections)
      ensures if old(index) == null then fresh(h) && h.Held() == LastSeens(connections) else h == old(index) && h.Held() == old(index.Held())
    {
      if index == null {
        h := new Heap();
        var todo := connections.Keys;
        while todo != {}
          invariant h.Valid() && fresh(h) && todo <= connections.Keys && connections == old(connections)
          invariant h.Held() == map id | id in connections && id !in todo :: connections[id].lastSeen
        {
          var id :| id in todo;
          assert id !in h.Held();
          h.Push(Entry(id, connections[id].lastSeen));
          todo := todo - {id};
        }
        HeldKeys(h.entries, h.indices);
        assert h.Held() == LastSeens(connections);
        assert LastSeens(connections).Keys == connections.Keys;
        index := h;
      }
      h := index;
    }

    /** Puts one connection into the index under its new time. */
    method Refresh(h: Heap, id: Id, seen: Seen)
      requires h.Valid()
      modifies h
      ensures h.Valid() && h.Held() == old(h.Held())[id := seen] && h.indices.Keys == old(h.indices.Keys) + {id}
    {
      HeldKeys(h.entries, h.indices);
      if id in h.indices {
        var i := h.indices[id];
        ChangedEntry(h.entries, h.indices, i, seen);
        h.entries := h.entries[i := Entry(id, seen)];
        h.Fix(i);
      } else {
        h.Push(Entry(id, seen));
      }
      HeldKeys(h.entries, h.indices);
      assert h.indices.Keys == h.Held().Keys;
    }

    /** Evicts until the heap is within the limit. */
    method EvictOldest(h: Heap)
      requires index == h && h.Valid() && connections.Keys <= h.indices.Keys
      modifies this`connections, h
      ensures h.Valid() && connections.Keys <= h.indices.Keys && |connections| <= LIMIT
      ensures |h.entries| == (if |old(h.entries)| > LIMIT then LIMIT else |old(h.entries)|)
      ensures Newest(old(h.Held()), h.Held())
      ensures OldestEvicted(old(h.Held()), old(connections), connections)
      ensures |old(h.entries)| <= LIMIT ==> connections == old(connections)
      ensures connections == map id | id in old(connections) && id in h.Held() :: old(connections)[id]
    {
      hide Contents;
      hide Indexed;
      hide Ordered;
      hide Newest;
      ghost var all, held := connections, h.Held();
      HeldKeys(h.entries, h.indices);
      NothingEvicted(held);
      while |h.entries| > LIMIT
        invariant h.Valid() && h.Held().Keys == h.indices.Keys
        invariant connections == map id | id in all && id in h.Held() :: all[id]
        invariant Newest(held, h.Held())
        invariant |h.entries| == |old(h.entries)| || |h.entries| >= LIMIT
        invariant |old(h.entries)| <= LIMIT ==> connections == all
        decreases |h.entries|
      {
        ghost var left := h.Held();
        var e := h.Pop();
        HeldKeys(h.entries, h.indices);
        EvictOne(held, left, e.id);
        connections := connections - {e.id};
      }
      StillHeld(held, h.Held(), all, connections);
      CoveredCount(connections, h.entries, h.indices);
    }

    /**
     Tracks a connection and evicts down to the limit, oldest entries first. The connection is put
     into the index under its new time; the entries of other connections may be older than what they
     stand for, so with an exact index, and only then, exactly the connections seen longest ago go.
     */
    method Track(c: Connection)
      requires Valid()
      modifies this, index
      ensures Valid()
      ensures c.id == "" ==> connections == old(connections)
      ensures c.id != "" ==> index != null && |connections| <= LIMIT
      ensures c.id != "" ==>
                var all := old(connections)[c.id := c];
                var held := (if old(index) == null then LastSeens(old(connections)) else old(index.Held()))[c.id := c.lastSeen];
                && OldestEvicted(held, all, connections) && Newest(held, index.Held())
                && connections == (map id | id in all && id in index.Held() :: all[id])
                && (|held| <= LIMIT ==> connections == all)
                && |index.entries| == (if |held| > LIMIT then LIMIT else |held|)
      ensures old(Exact()) ==> Exact()
    {
      hide Contents;
      hide Indexed;
      hide Ordered;
      hide OldestEvicted;
      hide Newest;
      if c.id == "" {
        return;
      }
      ghost var exact := Exact();
      var h := EnsureIndex();
      Refresh(h, c.id, c.lastSeen);
      HeldCount(h.entries, h.indices);
      LastSeensNext(connections, c);
      connections := connections[c.id := c];
      ghost var held, all := h.Held(), connections;
      EvictOldest(h);
      if exact {
        StaysExact(held, h.Held(), all, connections);
      }
    }

    /** A closed connection leaves the map; its entry stays behind. */
    method Close(id: Id)
      requires Valid()
      modifies this`connections
      ensures Valid() && connections == old(connections) - {id}
    {
      connections := connections - {id};
    }

    /** A source that arrives late renews the connection but not its entry. */
    method Attach(id: Id, source: string, seen: Seen) returns (found: bool)
      requires Valid()
      modifies this`connections
      ensures Valid() && found == (id in old(connections))
      ensures connections == if found then old(connections)[id := old(connections)[id].(source := source, lastSeen := seen)] else old(connections)
    {
      found := id in connections;
      if found {
        connections := connections[id := connections[id].(source := source, lastSeen := seen)];
      }
    }

    /** Pruning drops what is no longer active and starts over with the index. */
    method Prune(active: set<Id>)
      requires Valid()
      modifies this
      ensures Valid() && Exact() && index == null
      ensures connections == map id | id in old(connections) && id in active :: old(connections)[id]
    {
      connections := map id | id in connections && id in active :: connections[id];
      index := null;
    }
  }

  lemma ChangedEntry(s: seq<Entry>, indices: map<Id, nat>, i: nat, seen: Seen)
    requires Indexed(s, indices) && Ordered(s, |s|) && i < |s|
    ensures var t := s[i := Entry(s[i].id, seen)];
            Indexed(t, indices) && OrderedAround(t, |t|, i) && Contents(t, indices) == Contents(s, indices)[s[i].id := seen]
  {
    var t := s[i := Entry(s[i].id, seen)];
    forall k | 0 <= k < |s| && k != i && (k == 0 || Parent(k) != i)
      ensures Ok(t, k)
    {
      assert Ok(s, k);
    }
    forall k | 0 < k < |s| && Parent(k) == i && i > 0
      ensures t[Parent(i)].seen <= t[k].seen
    {
      assert Ok(s, k) && Ok(s, i);
    }
  }

  /** The index has as many entries as names. */
  lemma HeldCount(s: seq<Entry>, indices: map<Id, nat>)
    requires Indexed(s, indices)
    ensures |Contents(s, indices)| == |s|
  {
    HeldKeys(s, indices);
    IdsAreMany(s, indices, |s|);
    assert (set k | 0 <= k < |s| :: s[k].id) == indices.Keys;
    assert |Contents(s, indices)| == |Contents(s, indices).Keys|;
  }

  lemma {:induction false} IdsAreMany(s: seq<Entry>, indices: map<Id, nat>, n: nat)
    requires Indexed(s, indices) && n <= |s|
    ensures |set k | 0 <= k < n :: s[k].id| == n
  {
    if n > 0 {
      IdsAreMany(s, indices, n - 1);
      var front := set k | 0 <= k < n - 1 :: s[k].id;
      assert s[n - 1].id !in front;
      assert (set k | 0 <= k < n :: s[k].id) == front + {s[n - 1].id};
    }
  }

  lemma LastSeensNext(connections: map<Id, Connection>, c: Connection)
    ensures LastSeens(connections[c.id := c]) == LastSeens(connections)[c.id := c.lastSeen]
  {
  }

  lemma NothingEvicted(held: map<Id, Seen>)
    ensures Newest(held, held)
  {
  }

  lemma EvictOne(held: map<Id, Seen>, left: map<Id, Seen>, id: Id)
    requires Newest(held, left) && id in left && forall x :: x in left ==> left[id] <= left[x]
    ensures Newest(held, left - {id})
  {
  }

  lemma StillHeld(held: map<Id, Seen>, left: map<Id, Seen>, all: map<Id, Connection>, kept: map<Id, Connection>)
    requires Newest(held, left) && all.Keys <= held.Keys && kept == map id | id in all && id in left :: all[id]
    ensures OldestEvicted(held, all, kept)
  {
  }

  lemma StaysExact(held: map<Id, Seen>, left: map<Id, Seen>, all: map<Id, Connection>, kept: map<Id, Connection>)
    requires held == LastSeens(all) && Newest(held, left) && kept == map id | id in all && id in left :: all[id]
    ensures left == LastSeens(kept)
  {
    assert forall id :: id in left ==> id in all;
  }
}
