/**
 Reading the history tables back: a user's rows, ordered by ordinal, are the sequence that was
 saved, duplicates of an identity included.
 */
module HistoryRead {
  import opened Wrappers
  import opened HistoryRows
  import opened Names

  // ------------------------------------------------------------------------------------------
  // Stable keys
  // ------------------------------------------------------------------------------------------

  /** The text that is hashed for the key of a sequence row. */
  function StableText(identity: string, occurrence: nat): string {
    identity + [NUL] + Decimal(occurrence)
  }

  lemma NoNul(n: nat)
    ensures NUL !in Decimal(n)
  {
  }

  /** Different identities or occurrences never share a key, whatever characters an identity has. */
  lemma StableTextInjective(i1: string, n1: nat, i2: string, n2: nat)
    requires StableText(i1, n1) == StableText(i2, n2)
    ensures i1 == i2 && n1 == n2
  {
    var s := StableText(i1, n1);
    var d1, d2 := Decimal(n1), Decimal(n2);
    NoNul(n1);
    NoNul(n2);
    hide Decimal;
    assert s[|i1|] == NUL && s[|i2|] == NUL;
    assert forall k :: |i1| < k < |s| ==> s[k] == d1[k - |i1| - 1];
    assert forall k :: |i2| < k < |s| ==> s[k] == d2[k - |i2| - 1];
    assert |i1| == |i2|;
    assert i1 == s[..|i1|] && i2 == s[..|i2|];
    assert d1 == s[|i1| + 1..] && d2 == s[|i2| + 1..];
    DecimalInjective(n1, n2);
  }

  // ------------------------------------------------------------------------------------------
  // Sequence rows
  // ------------------------------------------------------------------------------------------

  lemma {:induction false} OccurrencesGrow(s: seq<Entry>, i: nat, j: nat, identity: string)
    requires i <= j <= |s|
    ensures Occurrences(s[..i], identity) <= Occurrences(s[..j], identity)
    decreases j
  {
    hide Identity;
    if i < j {
      assert s[..j][..j - 1] == s[..j - 1];
      OccurrencesGrow(s, i, j - 1, identity);
    }
  }

  /** Two places of a sequence never share a key. */
  lemma KeysDiffer(s: seq<Entry>, i: nat, j: nat)
    requires i < j < |s|
    ensures KeyAt(s, i) != KeyAt(s, j)
  {
    if Identity(s[i]) == Identity(s[j]) {
      assert s[..i + 1][..i] == s[..i];
      assert Occurrences(s[..i + 1], Identity(s[i])) == Occurrences(s[..i], Identity(s[i])) + 1;
      OccurrencesGrow(s, i + 1, j, Identity(s[i]));
    }
  }

  lemma {:induction false} SequenceRowsHave(id: Id, s: seq<Entry>, i: nat)
    requires i < |s|
    ensures RowKey(id, KeyAt(s, i)) in SequenceRows(id, s) && SequenceRows(id, s)[RowKey(id, KeyAt(s, i))] == EntryRow(i, s[i])
    decreases |s|
  {
    hide Occurrences;
    hide Identity;
    var last := |s| - 1;
    if i < last {
      var front := s[..last];
      assert front[..i] == s[..i];
      SequenceRowsHave(id, front, i);
      KeysDiffer(s, i, last);
    }
  }

  lemma {:induction false} SequenceRowsOnly(id: Id, s: seq<Entry>, k: RowKey)
    requires k in SequenceRows(id, s)
    ensures exists i :: 0 <= i < |s| && k == RowKey(id, KeyAt(s, i))
    decreases |s|
  {
    var last := |s| - 1;
    if k != RowKey(id, KeyAt(s, last)) {
      var front := s[..last];
      SequenceRowsOnly(id, front, k);
      var i :| 0 <= i < |front| && k == RowKey(id, KeyAt(front, i));
      assert front[..i] == s[..i];
      assert k == RowKey(id, KeyAt(s, i));
    }
  }

  /** The key of the next entry is not among the rows of those before it. */
  lemma NextKeyIsNew(id: Id, s: seq<Entry>, i: nat)
    requires i < |s|
    ensures RowKey(id, KeyAt(s, i)) !in SequenceRows(id, s[..i])
  {
    var k := RowKey(id, KeyAt(s, i));
    if k in SequenceRows(id, s[..i]) {
      SequenceRowsOnly(id, s[..i], k);
      var j :| 0 <= j < i && k == RowKey(id, KeyAt(s[..i], j));
      assert s[..i][..j] == s[..j];
      KeysDiffer(s, j, i);
    }
  }

  // ------------------------------------------------------------------------------------------
  // Reading by ordinal
  // ------------------------------------------------------------------------------------------

  function Ordinal(r: Row): nat {
    match r
    case StatRow(_) => 0
    case EntryRow(ordinal, _) => ordinal
    case AccessRow(ordinal, _) => ordinal
  }

  /** The rows of an owner, each once, in the order the query asks for. */
  predicate Listing(rows: Rows, id: Id, keys: seq<RowKey>) {
    && (forall i :: 0 <= i < |keys| ==> keys[i] in rows && keys[i].owner == id)
    && (forall i, j :: 0 <= i < j < |keys| ==> keys[i] != keys[j])
    && (forall k :: k in rows && k.owner == id ==> k in keys)
    && (forall i, j :: 0 <= i < j < |keys| ==> Ordinal(rows[keys[i]]) <= Ordinal(rows[keys[j]]))
  }

  /** A strictly increasing sequence that covers exactly the numbers below `n` counts up. */
  lemma {:induction false} CountsUp(f: seq<nat>, n: nat, i: nat)
    requires forall i, j :: 0 <= i < j < |f| ==> f[i] < f[j]
    requires forall i :: 0 <= i < |f| ==> f[i] < n
    requires forall x :: 0 <= x < n ==> x in f
    requires i < |f|
    ensures f[i] == i && i < n
  {
    if i > 0 {
      CountsUp(f, n, i - 1);
    }
    assert i <= f[i] < n;
    assert i in f;
    var m :| 0 <= m < |f| && f[m] == i;
  }

  lemma CountsAll(f: seq<nat>, n: nat)
    requires forall i, j :: 0 <= i < j < |f| ==> f[i] < f[j]
    requires forall i :: 0 <= i < |f| ==> f[i] < n
    requires forall x :: 0 <= x < n ==> x in f
    ensures |f| == n && forall i :: 0 <= i < |f| ==> f[i] == i
  {
    forall i | 0 <= i < |f|
      ensures f[i] == i && i < n
    {
      CountsUp(f, n, i);
    }
    if n > 0 {
      assert n - 1 in f;
      var m :| 0 <= m < |f| && f[m] == n - 1;
    }
    if |f| > 0 {
      assert f[|f| - 1] == |f| - 1;
    }
  }

  /** An owner's rows are the places of a sequence of `n` items, one row per place. */
  ghost predicate Places(rows: Rows, id: Id, n: nat, place: nat -> RowKey) {
    && (forall i: nat :: i < n ==> place(i) in rows && place(i).owner == id && Ordinal(rows[place(i)]) == i)
    && (forall k :: k in rows && k.owner == id ==> Ordinal(rows[k]) < n && k == place(Ordinal(rows[k])))
  }

  /** Listing by ordinal visits the places in order. */
  lemma ListingVisitsInOrder(rows: Rows, id: Id, n: nat, place: nat -> RowKey, keys: seq<RowKey>)
    requires Places(rows, id, n, place) && Listing(rows, id, keys)
    ensures |keys| == n && forall i :: 0 <= i < n ==> keys[i] == place(i)
  {
    var f := seq(|keys|, i requires 0 <= i < |keys| => Ordinal(rows[keys[i]]));
    forall i, j | 0 <= i < j < |f|
      ensures f[i] < f[j]
    {
      assert keys[i] == place(f[i]) && keys[j] == place(f[j]);
    }
    forall x | 0 <= x < n
      ensures x in f
    {
      var i :| 0 <= i < |keys| && keys[i] == place(x);
      assert f[i] == x;
    }
    CountsAll(f, n);
    forall i | 0 <= i < n
      ensures keys[i] == place(i)
    {
      assert f[i] == i;
    }
  }

  function ReadEntries(rows: Rows, keys: seq<RowKey>): seq<Entry>
    requires forall k :: k in keys ==> k in rows && rows[k].EntryRow?
  {
    seq(|keys|, i requires 0 <= i < |keys| => rows[keys[i]].entry)
  }

  function ReadAccesses(rows: Rows, keys: seq<RowKey>): seq<Access>
    requires forall k :: k in keys ==> k in rows && rows[k].AccessRow?
  {
    seq(|keys|, i requires 0 <= i < |keys| => rows[keys[i]].access)
  }

  /** The rows of one owner agree with what that owner asked for. */
  predicate Shows(rows: Rows, id: Id, mine: Rows) {
    && (forall k :: k in mine ==> k.owner == id && k in rows && rows[k] == mine[k])
    && (forall k :: k in rows && k.owner == id ==> k in mine)
  }

  lemma SequenceReadBack(rows: Rows, id: Id, s: seq<Entry>, keys: seq<RowKey>)
    requires Shows(rows, id, SequenceRows(id, s)) && Listing(rows, id, keys)
    ensures forall k :: k in keys ==> k in rows && rows[k].EntryRow?
    ensures ReadEntries(rows, keys) == s
  {
    hide SequenceRows;
    hide KeyAt;
    hide Listing;
    var place := (i: nat) => if i < |s| then RowKey(id, KeyAt(s, i)) else RowKey(id, Text(""));
    forall i: nat | i < |s|
      ensures place(i) in rows && rows[place(i)] == EntryRow(i, s[i])
    {
      SequenceRowsHave(id, s, i);
    }
    forall k | k in rows && k.owner == id
      ensures Ordinal(rows[k]) < |s| && k == place(Ordinal(rows[k]))
    {
      SequenceRowsOnly(id, s, k);
      var i :| 0 <= i < |s| && k == RowKey(id, KeyAt(s, i));
      SequenceRowsHave(id, s, i);
    }
    ListingVisitsInOrder(rows, id, |s|, place, keys);
  }

  lemma {:induction false} AccessRowsHave(id: Id, s: seq<Access>, i: nat)
    requires DistinctRoutes(s) && i < |s|
    ensures RowKey(id, RouteOf(s[i])) in AccessRows(id, s) && AccessRows(id, s)[RowKey(id, RouteOf(s[i]))] == AccessRow(i, s[i])
    decreases |s|
  {
    if i < |s| - 1 {
      AccessRowsHave(id, s[..|s| - 1], i);
    }
  }

  lemma {:induction false} AccessRowsOnly(id: Id, s: seq<Access>, k: RowKey)
    requires k in AccessRows(id, s)
    ensures exists i :: 0 <= i < |s| && k == RowKey(id, RouteOf(s[i]))
    decreases |s|
  {
    if k != RowKey(id, RouteOf(s[|s| - 1])) {
      AccessRowsOnly(id, s[..|s| - 1], k);
      var i :| 0 <= i < |s| - 1 && k == RowKey(id, RouteOf(s[..|s| - 1][i]));
      assert k == RowKey(id, RouteOf(s[i]));
    }
  }

  lemma AccessReadBack(rows: Rows, id: Id, s: seq<Access>, keys: seq<RowKey>)
    requires DistinctRoutes(s) && Shows(rows, id, AccessRows(id, s)) && Listing(rows, id, keys)
    ensures forall k :: k in keys ==> k in rows && rows[k].AccessRow?
    ensures ReadAccesses(rows, keys) == s
  {
    hide AccessRows;
    hide RouteOf;
    hide Listing;
    hide DistinctRoutes;
    var place := (i: nat) => if i < |s| then RowKey(id, RouteOf(s[i])) else RowKey(id, Text(""));
    forall i: nat | i < |s|
      ensures place(i) in rows && rows[place(i)] == AccessRow(i, s[i])
    {
      AccessRowsHave(id, s, i);
    }
    forall k | k in rows && k.owner == id
      ensures Ordinal(rows[k]) < |s| && k == place(Ordinal(rows[k]))
    {
      AccessRowsOnly(id, s, k);
      var i :| 0 <= i < |s| && k == RowKey(id, RouteOf(s[i]));
      AccessRowsHave(id, s, i);
    }
    ListingVisitsInOrder(rows, id, |s|, place, keys);
  }

  /** The map read from an owner's statistic rows. */
  function ReadStats(rows: Rows, id: Id): map<string, Stat> {
    map x | x in (set k | k in rows && k.owner == id && k.key.Text? :: k.key.value)
          && RowKey(id, Text(x)) in rows && rows[RowKey(id, Text(x))].StatRow? :: rows[RowKey(id, Text(x))].stat
  }

  lemma StatsReadBack(rows: Rows, id: Id, m: map<string, Stat>)
    requires Shows(rows, id, StatRows(id, m))
    ensures ReadStats(rows, id) == m
  {
    forall x | x in m
      ensures x in ReadStats(rows, id)
    {
      assert RowKey(id, Text(x)) in StatRows(id, m);
      assert RowKey(id, Text(x)) in rows;
    }
  }

  // ------------------------------------------------------------------------------------------
  // A saved state reads back
  // ------------------------------------------------------------------------------------------

  /** In a fully written table each user's own rows are what that user asked for. */
  lemma SavedShowsUser(e: Entities, users: seq<User>, t: Table, i: nat)
    requires Sound(e) && AllPresent(e, users) && DistinctUsers(users) && i < |users|
    requires t != DeviceSources && t != NodeDestinations
    ensures Present(e, users[i])
    ensures Shows(Wanted(e, users, t, None), e.users[users[i].name], UserRows(e, users[i], t))
  {
    hide UserRows;
    hide Wanted;
    hide Sound;
    UserPresent(e, users, i);
    var mine := UserRows(e, users[i], t);
    forall k | k in mine
      ensures k.owner == e.users[users[i].name]
    {
      UserRowsOwned(e, users[i], t, k);
    }
    forall k: RowKey | k.owner == e.users[users[i].name]
      ensures SameAt(Wanted(e, users, t, None), mine, k)
    {
      WantedInScope(e, users, t, None, i, k);
    }
    assert forall k :: k in mine ==> SameAt(Wanted(e, users, t, None), mine, k);
    assert forall k :: k in Wanted(e, users, t, None) && k.owner == e.users[users[i].name] ==> SameAt(Wanted(e, users, t, None), mine, k);
  }

  predicate DistinctDeviceNames(devices: seq<Device>) {
    forall i, j :: 0 <= i < j < |devices| ==> devices[i].name != devices[j].name
  }

  predicate DistinctNodeNames(nodes: seq<Node>) {
    forall i, j :: 0 <= i < j < |nodes| ==> (nodes[i].device, nodes[i].name) != (nodes[j].device, nodes[j].name)
  }

  lemma ShowsAfter(front: Rows, id: Id, mine: Rows, other: Id, m: map<string, Stat>)
    requires Shows(front, id, mine) && id != other
    ensures Shows(front + StatRows(other, m), id, mine)
  {
  }

  lemma ShowsLast(front: Rows, id: Id, m: map<string, Stat>)
    requires forall k :: k in front ==> k.owner != id
    ensures Shows(front + StatRows(id, m), id, StatRows(id, m))
  {
  }

  /** Among a user's device rows each device has its own. */
  lemma {:induction false} DeviceRowsShow(e: Entities, user: Name, devices: seq<Device>, j: nat)
    requires Sound(e) && DistinctDeviceNames(devices) && j < |devices| && forall d :: d in devices ==> (user, d.name) in e.devices
    ensures var id := e.devices[(user, devices[j].name)]; Shows(DeviceRows(e, user, devices), id, StatRows(id, devices[j].sources))
    decreases |devices|
  {
    hide Shows;
    hide StatRows;
    var last := |devices| - 1;
    var front := devices[..last];
    if j < last {
      DeviceRowsShow(e, user, front, j);
      ShowsAfter(DeviceRows(e, user, front), e.devices[(user, devices[j].name)], StatRows(e.devices[(user, devices[j].name)], devices[j].sources),
                 e.devices[(user, devices[last].name)], devices[last].sources);
    } else {
      forall k | k in DeviceRows(e, user, front)
        ensures k.owner != e.devices[(user, devices[last].name)]
      {
        DeviceRowsOwned(e, user, front, k);
        var i :| 0 <= i < last && e.devices[(user, front[i].name)] == k.owner;
        assert devices[i].name != devices[last].name;
      }
      ShowsLast(DeviceRows(e, user, front), e.devices[(user, devices[last].name)], devices[last].sources);
    }
  }

  lemma {:induction false} NodeRowsShow(e: Entities, user: Name, nodes: seq<Node>, j: nat)
    requires Sound(e) && DistinctNodeNames(nodes) && j < |nodes| && forall n :: n in nodes ==> (user, n.device, n.name) in e.nodes
    ensures var id := e.nodes[(user, nodes[j].device, nodes[j].name)].id;
            Shows(NodeRows(e, user, nodes), id, StatRows(id, nodes[j].destinations))
    decreases |nodes|
  {
    hide Shows;
    hide StatRows;
    var last := |nodes| - 1;
    var front := nodes[..last];
    var x, y := nodes[j], nodes[last];
    if j < last {
      NodeRowsShow(e, user, front, j);
      ShowsAfter(NodeRows(e, user, front), e.nodes[(user, x.device, x.name)].id, StatRows(e.nodes[(user, x.device, x.name)].id, x.destinations),
                 e.nodes[(user, y.device, y.name)].id, y.destinations);
    } else {
      forall k | k in NodeRows(e, user, front)
        ensures k.owner != e.nodes[(user, y.device, y.name)].id
      {
        NodeRowsOwned(e, user, front, k);
        var i :| 0 <= i < last && e.nodes[(user, front[i].device, front[i].name)].id == k.owner;
        assert (nodes[i].device, nodes[i].name) != (y.device, y.name);
      }
      ShowsLast(NodeRows(e, user, front), e.nodes[(user, y.device, y.name)].id, y.destinations);
    }
  }

  /** In a fully written table a device or node of the user has what it has among the user's rows. */
  lemma SavedShowsPart(e: Entities, users: seq<User>, t: Table, i: nat, id: Id, mine: Rows)
    requires Sound(e) && AllPresent(e, users) && DistinctUsers(users) && i < |users| && Present(e, users[i])
    requires OwnedBy(e, users[i].name, t, id) && Shows(UserRows(e, users[i], t), id, mine)
    ensures Shows(Wanted(e, users, t, None), id, mine)
  {
    hide UserRows;
    hide Wanted;
    hide Sound;
    hide OwnedBy;
    forall k: RowKey | k.owner == id
      ensures SameAt(Wanted(e, users, t, None), UserRows(e, users[i], t), k)
    {
      WantedInScope(e, users, t, None, i, k);
    }
    assert forall k :: k in mine ==> SameAt(Wanted(e, users, t, None), UserRows(e, users[i], t), k);
    assert forall k :: k in Wanted(e, users, t, None) && k.owner == id ==> SameAt(Wanted(e, users, t, None), UserRows(e, users[i], t), k);
  }

  /** The statistics of a device read back. */
  lemma DeviceReadsBack(e: Entities, users: seq<User>, i: nat, j: nat)
    requires Sound(e) && AllPresent(e, users) && DistinctUsers(users) && i < |users|
    requires j < |users[i].devices| && DistinctDeviceNames(users[i].devices)
    ensures (users[i].name, users[i].devices[j].name) in e.devices
    ensures ReadStats(Wanted(e, users, DeviceSources, None), e.devices[(users[i].name, users[i].devices[j].name)]) == users[i].devices[j].sources
  {
    hide Wanted;
    hide StatRows;
    hide Shows;
    assert users[i] in users && Present(e, users[i]);
    var u, d := users[i], users[i].devices[j];
    var id := e.devices[(u.name, d.name)];
    DeviceRowsShow(e, u.name, u.devices, j);
    hide DeviceRows;
    SavedShowsPart(e, users, DeviceSources, i, id, StatRows(id, d.sources));
    StatsReadBack(Wanted(e, users, DeviceSources, None), id, d.sources);
  }

  /** So do those of a node. */
  lemma NodeReadsBack(e: Entities, users: seq<User>, i: nat, j: nat)
    requires Sound(e) && AllPresent(e, users) && DistinctUsers(users) && i < |users|
    requires j < |users[i].nodes| && DistinctNodeNames(users[i].nodes)
    ensures (users[i].name, users[i].nodes[j].device, users[i].nodes[j].name) in e.nodes
    ensures ReadStats(Wanted(e, users, NodeDestinations, None), e.nodes[(users[i].name, users[i].nodes[j].device, users[i].nodes[j].name)].id)
         == users[i].nodes[j].destinations
  {
    hide Wanted;
    hide StatRows;
    hide Shows;
    assert users[i] in users && Present(e, users[i]);
    var u, n := users[i], users[i].nodes[j];
    var id := e.nodes[(u.name, n.device, n.name)].id;
    NodeRowsShow(e, u.name, u.nodes, j);
    hide NodeRows;
    SavedShowsPart(e, users, NodeDestinations, i, id, StatRows(id, n.destinations));
    StatsReadBack(Wanted(e, users, NodeDestinations, None), id, n.destinations);
  }

  /** What a saved state reads back for a user, table by table. */
  lemma SavedReadsBack(e: Entities, users: seq<User>, i: nat, keys: seq<RowKey>)
    requires Sound(e) && AllPresent(e, users) && DistinctUsers(users) && i < |users|
    ensures Present(e, users[i])
    ensures var u, id := users[i], e.users[users[i].name];
            && ReadStats(Wanted(e, users, UserSources, None), id) == u.sources
            && ReadsAs(Wanted(e, users, TrafficSamples, None), id, keys, u.samples)
            && ReadsAs(Wanted(e, users, UsageHistory, None), id, keys, u.usage)
            && ReadsAs(Wanted(e, users, BillingHistory, None), id, keys, u.billing)
            && (DistinctRoutes(u.accesses) ==> ReadsAccesses(Wanted(e, users, RecentAccesses, None), id, keys, u.accesses))
  {
    hide Wanted;
    hide Sound;
    hide Listing;
    hide SequenceRows;
    hide AccessRows;
    hide StatRows;
    hide Shows;
    SavedShowsUser(e, users, UserSources, i);
    SavedShowsUser(e, users, TrafficSamples, i);
    SavedShowsUser(e, users, UsageHistory, i);
    SavedShowsUser(e, users, BillingHistory, i);
    SavedShowsUser(e, users, RecentAccesses, i);
    var u, id := users[i], e.users[users[i].name];
    StatsReadBack(Wanted(e, users, UserSources, None), id, u.sources);
    if Listing(Wanted(e, users, TrafficSamples, None), id, keys) {
      SequenceReadBack(Wanted(e, users, TrafficSamples, None), id, u.samples, keys);
    }
    if Listing(Wanted(e, users, UsageHistory, None), id, keys) {
      SequenceReadBack(Wanted(e, users, UsageHistory, None), id, u.usage, keys);
    }
    if Listing(Wanted(e, users, BillingHistory, None), id, keys) {
      SequenceReadBack(Wanted(e, users, BillingHistory, None), id, u.billing, keys);
    }
    if DistinctRoutes(u.accesses) && Listing(Wanted(e, users, RecentAccesses, None), id, keys) {
      AccessReadBack(Wanted(e, users, RecentAccesses, None), id, u.accesses, keys);
    }
  }

  predicate ReadsAccesses(rows: Rows, id: Id, keys: seq<RowKey>, s: seq<Access>) {
    Listing(rows, id, keys) ==> (forall k :: k in keys ==> k in rows && rows[k].AccessRow?) && ReadAccesses(rows, keys) == s
  }

  /** Any listing of the owner's rows reads as the sequence. */
  predicate ReadsAs(rows: Rows, id: Id, keys: seq<RowKey>, s: seq<Entry>) {
    Listing(rows, id, keys) ==> (forall k :: k in keys ==> k in rows && rows[k].EntryRow?) && ReadEntries(rows, keys) == s
  }
}
