/**
 The seven history tables of the state database, as the rows a state asks for and the rows a
 reconciling write leaves behind.

 Names are normalised (trimmed, lower case). A digest is modelled by the value it is taken of.
 */
module HistoryRows {
  import opened Wrappers

  type Id = nat
  type Name = string

  datatype Table =
    | UserSources | TrafficSamples | UsageHistory | BillingHistory | RecentAccesses | DeviceSources | NodeDestinations

  datatype Stat =
    | Source(count: int, violations: int, first: string, last: string, lastNode: string, lastAlert: string)
    | Seen(count: int, last: string)

  datatype Entry =
    | Sample(at: string, bytes: int)
    | Usage(at: string, up: int, down: int, upRate: real, downRate: real)
    | Billing(started: string, ended: string, up: int, down: int, quota: int)

  datatype Access = Access(target: string, device: string, node: string, first: string, last: string, count: int)

  datatype Device = Device(name: Name, sources: map<string, Stat>)

  datatype Node = Node(name: Name, device: Name, auth: string, uuid: string, destinations: map<string, Stat>)

  datatype User = User(
    name: Name, sources: map<string, Stat>, samples: seq<Entry>, usage: seq<Entry>, billing: seq<Entry>,
    accesses: seq<Access>, devices: seq<Device>, nodes: seq<Node>)

  /** `rest` is everything in a state that no history table holds. */
  datatype State = State(users: seq<User>, rest: string)

  // ------------------------------------------------------------------------------------------
  // Rows
  // ------------------------------------------------------------------------------------------

  datatype Key = Text(value: string) | Sequenced(identity: string, occurrence: nat) | Route(target: string, device: string, node: string)

  datatype RowKey = RowKey(owner: Id, key: Key)

  datatype Row = StatRow(stat: Stat) | EntryRow(ordinal: nat, entry: Entry) | AccessRow(ordinal: nat, access: Access)

  type Rows = map<RowKey, Row>

  datatype NodeRow = NodeRow(id: Id, auth: string, uuid: string)

  /** The rows of the entity tables under their unique names. */
  datatype Entities = Entities(users: map<Name, Id>, devices: map<(Name, Name), Id>, nodes: map<(Name, Name, Name), NodeRow>)

  const NOBODY := Entities(map[], map[], map[])

  ghost predicate Sound(e: Entities) {
    && (forall a, b :: a in e.users && b in e.users && e.users[a] == e.users[b] ==> a == b)
    && (forall a, b :: a in e.devices && b in e.devices && e.devices[a] == e.devices[b] ==> a == b)
    && (forall a, b :: a in e.nodes && b in e.nodes && e.nodes[a].id == e.nodes[b].id ==> a == b)
  }

  predicate Present(e: Entities, u: User) {
    && u.name in e.users
    && (forall d :: d in u.devices ==> (u.name, d.name) in e.devices)
    && (forall n :: n in u.nodes ==> (u.name, n.device, n.name) in e.nodes)
  }

  const NUL := 0 as char

  function Identity(x: Entry): string {
    match x
    case Sample(at, _) => at
    case Usage(at, _, _, _, _) => at
    case Billing(started, ended, _, _, _) => started + [NUL] + ended
  }

  /** How often an identity came before. */
  function Occurrences(s: seq<Entry>, identity: string): nat {
    if s == [] then 0
    else Occurrences(s[..|s| - 1], identity) + if Identity(s[|s| - 1]) == identity then 1 else 0
  }

  function KeyAt(s: seq<Entry>, i: nat): Key
    requires i < |s|
  {
    Sequenced(Identity(s[i]), Occurrences(s[..i], Identity(s[i])))
  }

  function SequenceRows(id: Id, s: seq<Entry>): Rows {
    if s == [] then map[]
    else SequenceRows(id, s[..|s| - 1])[RowKey(id, KeyAt(s, |s| - 1)) := EntryRow(|s| - 1, s[|s| - 1])]
  }

  function RouteOf(x: Access): Key {
    Route(x.target, x.device, x.node)
  }

  predicate DistinctRoutes(s: seq<Access>) {
    forall i, j :: 0 <= i < j < |s| ==> RouteOf(s[i]) != RouteOf(s[j])
  }

  function AccessRows(id: Id, s: seq<Access>): Rows {
    if s == [] then map[]
    else AccessRows(id, s[..|s| - 1])[RowKey(id, RouteOf(s[|s| - 1])) := AccessRow(|s| - 1, s[|s| - 1])]
  }

  function StatRows(id: Id, m: map<string, Stat>): Rows {
    map k | k in (set x | x in m :: RowKey(id, Text(x))) :: StatRow(m[k.key.value])
  }

  function DeviceRows(e: Entities, user: Name, devices: seq<Device>): Rows
    requires forall d :: d in devices ==> (user, d.name) in e.devices
  {
    if devices == [] then map[]
    else
      var d := devices[|devices| - 1];
      DeviceRows(e, user, devices[..|devices| - 1]) + StatRows(e.devices[(user, d.name)], d.sources)
  }

  function NodeRows(e: Entities, user: Name, nodes: seq<Node>): Rows
    requires forall n :: n in nodes ==> (user, n.device, n.name) in e.nodes
  {
    if nodes == [] then map[]
    else
      var n := nodes[|nodes| - 1];
      NodeRows(e, user, nodes[..|nodes| - 1]) + StatRows(e.nodes[(user, n.device, n.name)].id, n.destinations)
  }

  /** The rows one user asks for in one table. */
  function UserRows(e: Entities, u: User, t: Table): Rows
    requires Present(e, u)
  {
    match t
    case UserSources => StatRows(e.users[u.name], u.sources)
    case TrafficSamples => SequenceRows(e.users[u.name], u.samples)
    case UsageHistory => SequenceRows(e.users[u.name], u.usage)
    case BillingHistory => SequenceRows(e.users[u.name], u.billing)
    case RecentAccesses => AccessRows(e.users[u.name], u.accesses)
    case DeviceSources => DeviceRows(e, u.name, u.devices)
    case NodeDestinations => NodeRows(e, u.name, u.nodes)
  }

  /** The row id belongs to the user, directly or through a device or node. */
  predicate OwnedBy(e: Entities, user: Name, t: Table, owner: Id) {
    match t
    case DeviceSources => exists p :: p in e.devices && p.0 == user && e.devices[p] == owner
    case NodeDestinations => exists p :: p in e.nodes && p.0 == user && e.nodes[p].id == owner
    case _ => user in e.users && e.users[user] == owner
  }

  // ------------------------------------------------------------------------------------------
  // Snapshots and changes
  // ------------------------------------------------------------------------------------------

  datatype NodeView = NodeView(name: Name, device: Name, destinations: map<string, Stat>)

  datatype Content =
    | Stats(stats: map<string, Stat>) | Entries(entries: seq<Entry>) | Accesses(accesses: seq<Access>)
    | Devices(devices: seq<Device>) | Nodes(nodes: seq<NodeView>)

  function ViewOf(n: Node): NodeView {
    NodeView(n.name, n.device, n.destinations)
  }

  function Views(nodes: seq<Node>): (r: seq<NodeView>)
    ensures |r| == |nodes| && forall i :: 0 <= i < |nodes| ==> r[i] == ViewOf(nodes[i])
  {
    seq(|nodes|, i requires 0 <= i < |nodes| => ViewOf(nodes[i]))
  }

  /** What the digest of a user's table is taken of. */
  function ContentOf(u: User, t: Table): Content {
    match t
    case UserSources => Stats(u.sources)
    case TrafficSamples => Entries(u.samples)
    case UsageHistory => Entries(u.usage)
    case BillingHistory => Entries(u.billing)
    case RecentAccesses => Accesses(u.accesses)
    case DeviceSources => Devices(u.devices)
    case NodeDestinations => Nodes(Views(u.nodes))
  }

  type Digests = map<(Name, Table), Content>

  datatype Snapshot = Snapshot(path: string, stateHash: State, digests: Digests)

  function DigestsOf(users: seq<User>): Digests {
    if users == [] then map[]
    else
      var u := users[|users| - 1];
      DigestsOf(users[..|users| - 1])
      + map k | k in {(u.name, UserSources), (u.name, TrafficSamples), (u.name, UsageHistory), (u.name, BillingHistory),
                      (u.name, RecentAccesses), (u.name, DeviceSources), (u.name, NodeDestinations)} :: ContentOf(u, k.1)
  }

  function SnapshotOf(path: string, s: State): Snapshot {
    Snapshot(path, s, DigestsOf(s.users))
  }

  /** The tables to reconcile per user; none means all of them. */
  type Changes = Option<set<(Name, Table)>>

  function Changed(previous: Option<Snapshot>, next: Snapshot, oldHash: Option<State>): Changes {
    if previous.None? || previous.value.path != next.path || Some(previous.value.stateHash) != oldHash then None
    else
      var before := previous.value.digests;
      Some(set k | k in next.digests && (k !in before || before[k] != next.digests[k]))
  }

  predicate Includes(c: Changes, user: Name, t: Table) {
    c.None? || (user, t) in c.value
  }

  // ------------------------------------------------------------------------------------------
  // A reconciling write of one table
  // ------------------------------------------------------------------------------------------

  predicate DistinctUsers(users: seq<User>) {
    forall i, j :: 0 <= i < j < |users| ==> users[i].name != users[j].name
  }

  predicate AllPresent(e: Entities, users: seq<User>) {
    forall u :: u in users ==> Present(e, u)
  }

  /** The rows a write puts into a table. */
  function Wanted(e: Entities, users: seq<User>, t: Table, c: Changes): Rows
    requires AllPresent(e, users)
  {
    if users == [] then map[]
    else
      var u := users[|users| - 1];
      Wanted(e, users[..|users| - 1], t, c) + if Includes(c, u.name, t) then UserRows(e, u, t) else map[]
  }

  predicate InScope(e: Entities, users: seq<User>, t: Table, c: Changes, owner: Id) {
    exists i :: 0 <= i < |users| && Includes(c, users[i].name, t) && OwnedBy(e, users[i].name, t, owner)
  }

  /** The table after the upserts and the deletion of what was not kept in the scopes. */
  function Reconciled(e: Entities, users: seq<User>, t: Table, c: Changes, rows: Rows): Rows
    requires AllPresent(e, users)
  {
    var put := rows + Wanted(e, users, t, c);
    map k | k in put && (k in Wanted(e, users, t, c) || !InScope(e, users, t, c, k.owner)) :: put[k]
  }

  /** Every row belongs to a user of the state. */
  predicate AllOwned(e: Entities, users: seq<User>, t: Table, rows: Rows) {
    forall k :: k in rows ==> exists i :: 0 <= i < |users| && OwnedBy(e, users[i].name, t, k.owner)
  }

  /** The table already holds exactly what this user asks for. */
  ghost predicate Holds(e: Entities, u: User, t: Table, rows: Rows)
    requires Present(e, u)
  {
    var mine := UserRows(e, u, t);
    forall k: RowKey :: OwnedBy(e, u.name, t, k.owner) ==> (k in rows <==> k in mine) && (k in rows && k in mine ==> rows[k] == mine[k])
  }

  lemma OneOwner(e: Entities, a: Name, b: Name, t: Table, owner: Id)
    requires Sound(e) && OwnedBy(e, a, t, owner) && OwnedBy(e, b, t, owner)
    ensures a == b
  {
    match t
    case DeviceSources =>
      var p :| p in e.devices && p.0 == a && e.devices[p] == owner;
      var q :| q in e.devices && q.0 == b && e.devices[q] == owner;
    case NodeDestinations =>
      var p :| p in e.nodes && p.0 == a && e.nodes[p].id == owner;
      var q :| q in e.nodes && q.0 == b && e.nodes[q].id == owner;
    case _ =>
  }

  lemma {:induction false} DeviceRowsOwned(e: Entities, user: Name, devices: seq<Device>, k: RowKey)
    requires forall d :: d in devices ==> (user, d.name) in e.devices
    requires k in DeviceRows(e, user, devices)
    ensures exists i :: 0 <= i < |devices| && e.devices[(user, devices[i].name)] == k.owner
  {
    var last := |devices| - 1;
    if k in DeviceRows(e, user, devices[..last]) {
      DeviceRowsOwned(e, user, devices[..last], k);
      var i :| 0 <= i < last && e.devices[(user, devices[..last][i].name)] == k.owner;
      assert devices[..last][i] == devices[i];
    } else {
      assert e.devices[(user, devices[last].name)] == k.owner;
    }
  }

  lemma {:induction false} NodeRowsOwned(e: Entities, user: Name, nodes: seq<Node>, k: RowKey)
    requires forall n :: n in nodes ==> (user, n.device, n.name) in e.nodes
    requires k in NodeRows(e, user, nodes)
    ensures exists i :: 0 <= i < |nodes| && e.nodes[(user, nodes[i].device, nodes[i].name)].id == k.owner
  {
    var last := |nodes| - 1;
    if k in NodeRows(e, user, nodes[..last]) {
      NodeRowsOwned(e, user, nodes[..last], k);
      var i :| 0 <= i < last && e.nodes[(user, nodes[..last][i].device, nodes[..last][i].name)].id == k.owner;
      assert nodes[..last][i] == nodes[i];
    } else {
      assert e.nodes[(user, nodes[last].device, nodes[last].name)].id == k.owner;
    }
  }

  lemma {:induction false} SequenceRowsOwned(id: Id, s: seq<Entry>, k: RowKey)
    requires k in SequenceRows(id, s)
    ensures k.owner == id
  {
    if k != RowKey(id, KeyAt(s, |s| - 1)) {
      SequenceRowsOwned(id, s[..|s| - 1], k);
    }
  }

  lemma {:induction false} AccessRowsOwned(id: Id, s: seq<Access>, k: RowKey)
    requires k in AccessRows(id, s)
    ensures k.owner == id
  {
    if k != RowKey(id, RouteOf(s[|s| - 1])) {
      AccessRowsOwned(id, s[..|s| - 1], k);
    }
  }

  lemma UserRowsOwned(e: Entities, u: User, t: Table, k: RowKey)
    requires Present(e, u) && k in UserRows(e, u, t)
    ensures OwnedBy(e, u.name, t, k.owner)
  {
    match t
    case UserSources =>
    case TrafficSamples => SequenceRowsOwned(e.users[u.name], u.samples, k);
    case UsageHistory => SequenceRowsOwned(e.users[u.name], u.usage, k);
    case BillingHistory => SequenceRowsOwned(e.users[u.name], u.billing, k);
    case RecentAccesses => AccessRowsOwned(e.users[u.name], u.accesses, k);
    case DeviceSources => DeviceRowsOwned(e, u.name, u.devices, k);
    case NodeDestinations => NodeRowsOwned(e, u.name, u.nodes, k);
  }

  /** Within one user's scope a write asks for that user's rows and nothing else. */
  lemma {:induction false} WantedInScope(e: Entities, users: seq<User>, t: Table, c: Changes, i: nat, k: RowKey)
    requires Sound(e) && AllPresent(e, users) && DistinctUsers(users) && i < |users|
    requires OwnedBy(e, users[i].name, t, k.owner)
    ensures var mine := UserRows(e, users[i], t);
            && (k in Wanted(e, users, t, c) <==> Includes(c, users[i].name, t) && k in mine)
            && (k in Wanted(e, users, t, c) ==> Wanted(e, users, t, c)[k] == mine[k])
  {
    hide UserRows;
    hide OwnedBy;
    hide Sound;
    hide Includes;
    hide Present;
    var last := |users| - 1;
    if i < last {
      assert users[..last][i] == users[i];
      WantedInScope(e, users[..last], t, c, i, k);
      if k in UserRows(e, users[last], t) {
        UserRowsOwned(e, users[last], t, k);
        OneOwner(e, users[i].name, users[last].name, t, k.owner);
        assert false;
      }
    } else if k in Wanted(e, users[..last], t, c) {
      WantedOwned(e, users[..last], t, c, k);
      var j :| 0 <= j < last && OwnedBy(e, users[..last][j].name, t, k.owner);
      OneOwner(e, users[i].name, users[j].name, t, k.owner);
      assert false;
    }
  }

  lemma {:induction false} WantedOwned(e: Entities, users: seq<User>, t: Table, c: Changes, k: RowKey)
    requires AllPresent(e, users) && k in Wanted(e, users, t, c)
    ensures exists i :: 0 <= i < |users| && OwnedBy(e, users[i].name, t, k.owner)
  {
    hide UserRows;
    hide OwnedBy;
    hide Includes;
    hide Present;
    var last := |users| - 1;
    if k in Wanted(e, users[..last], t, c) {
      WantedOwned(e, users[..last], t, c, k);
      var i :| 0 <= i < last && OwnedBy(e, users[..last][i].name, t, k.owner);
      assert OwnedBy(e, users[i].name, t, k.owner);
    } else {
      UserRowsOwned(e, users[last], t, k);
      assert OwnedBy(e, users[last].name, t, k.owner);
    }
  }

  /**
   A partial write leaves the table a full write of the state would leave exactly when every scope
   it skips already holds its user's rows.
   */
  lemma PartialWriteIsFull(e: Entities, users: seq<User>, t: Table, c: Changes, rows: Rows)
    requires Sound(e) && AllPresent(e, users) && DistinctUsers(users) && AllOwned(e, users, t, rows)
    ensures Reconciled(e, users, t, c, rows) == Wanted(e, users, t, None)
       <==> forall u :: u in users && !Includes(c, u.name, t) ==> Holds(e, u, t, rows)
  {
    if forall u :: u in users && !Includes(c, u.name, t) ==> Holds(e, u, t, rows) {
      forall k: RowKey
        ensures SameAt(Reconciled(e, users, t, c, rows), Wanted(e, users, t, None), k)
      {
        SkippedScopesHold(e, users, t, c, rows, k);
      }
      SameEverywhere(Reconciled(e, users, t, c, rows), Wanted(e, users, t, None));
    }
    if Reconciled(e, users, t, c, rows) == Wanted(e, users, t, None) {
      forall u | u in users && !Includes(c, u.name, t)
        ensures Holds(e, u, t, rows)
      {
        var i :| 0 <= i < |users| && users[i] == u;
        SkippedScopeHeld(e, users, t, c, rows, i);
      }
    }
  }

  predicate SameAt(a: Rows, b: Rows, k: RowKey) {
    (k in a <==> k in b) && (k in a && k in b ==> a[k] == b[k])
  }

  lemma SameEverywhere(a: Rows, b: Rows)
    requires forall k: RowKey :: SameAt(a, b, k)
    ensures a == b
  {
    assert forall k: RowKey :: k in a ==> SameAt(a, b, k);
    assert forall k: RowKey :: k in b ==> SameAt(a, b, k);
  }

  lemma SkippedScopesHold(e: Entities, users: seq<User>, t: Table, c: Changes, rows: Rows, k: RowKey)
    requires Sound(e) && AllPresent(e, users) && DistinctUsers(users) && AllOwned(e, users, t, rows)
    requires forall u :: u in users && !Includes(c, u.name, t) ==> Holds(e, u, t, rows)
    ensures SameAt(Reconciled(e, users, t, c, rows), Wanted(e, users, t, None), k)
  {
    hide Wanted;
    hide UserRows;
    hide OwnedBy;
    hide Sound;
    hide Present;
    if exists i :: 0 <= i < |users| && OwnedBy(e, users[i].name, t, k.owner) {
      var i :| 0 <= i < |users| && OwnedBy(e, users[i].name, t, k.owner);
      WantedInScope(e, users, t, c, i, k);
      WantedInScope(e, users, t, None, i, k);
      ScopeOf(e, users, t, c, i, k.owner);
    } else {
      if k in Wanted(e, users, t, c) { WantedOwned(e, users, t, c, k); }
      if k in Wanted(e, users, t, None) { WantedOwned(e, users, t, None, k); }
    }
  }

  lemma ScopeOf(e: Entities, users: seq<User>, t: Table, c: Changes, i: nat, owner: Id)
    requires Sound(e) && DistinctUsers(users) && i < |users| && OwnedBy(e, users[i].name, t, owner)
    ensures InScope(e, users, t, c, owner) <==> Includes(c, users[i].name, t)
  {
    hide OwnedBy;
    hide Sound;
    if InScope(e, users, t, c, owner) {
      var j :| 0 <= j < |users| && Includes(c, users[j].name, t) && OwnedBy(e, users[j].name, t, owner);
      OneOwner(e, users[i].name, users[j].name, t, owner);
    }
  }

  lemma SkippedScopeHeld(e: Entities, users: seq<User>, t: Table, c: Changes, rows: Rows, i: nat)
    requires Sound(e) && AllPresent(e, users) && DistinctUsers(users) && i < |users|
    requires !Includes(c, users[i].name, t)
    requires Reconciled(e, users, t, c, rows) == Wanted(e, users, t, None)
    ensures Holds(e, users[i], t, rows)
  {
    hide Wanted;
    hide UserRows;
    hide OwnedBy;
    hide Sound;
    hide Present;
    var full := Reconciled(e, users, t, c, rows);
    forall k: RowKey | OwnedBy(e, users[i].name, t, k.owner)
      ensures SameAt(rows, UserRows(e, users[i], t), k)
    {
      WantedInScope(e, users, t, c, i, k);
      WantedInScope(e, users, t, None, i, k);
      ScopeOf(e, users, t, c, i, k.owner);
      assert k in rows <==> k in full;
    }
    assert forall k: RowKey :: OwnedBy(e, users[i].name, t, k.owner) ==> SameAt(rows, UserRows(e, users[i], t), k);
  }

  // ------------------------------------------------------------------------------------------
  // Why an unchanged digest may skip its scope
  // ------------------------------------------------------------------------------------------

  predicate HasUser(users: seq<User>, n: Name) {
    exists u :: u in users && u.name == n
  }

  predicate HasDevice(users: seq<User>, p: (Name, Name)) {
    exists u :: u in users && u.name == p.0 && exists d :: d in u.devices && d.name == p.1
  }

  predicate HasNode(users: seq<User>, p: (Name, Name, Name)) {
    exists u :: u in users && u.name == p.0 && exists n :: n in u.nodes && n.device == p.1 && n.name == p.2
  }

  /** The entity tables hold the users, devices and nodes of the state and no others. */
  ghost predicate Exactly(e: Entities, users: seq<User>) {
    && DistinctUsers(users) && AllPresent(e, users)
    && (forall n :: n in e.users ==> HasUser(users, n))
    && (forall p :: p in e.devices ==> HasDevice(users, p))
    && (forall p :: p in e.nodes ==> HasNode(users, p))
  }

  /** Every node of the user has a row under its own name already. */
  predicate NodesKnown(e: Entities, u: User) {
    forall n :: n in u.nodes ==> (u.name, n.device, n.name) in e.nodes
  }

  ghost predicate NodesKept(before: Entities, after: Entities, u: User) {
    forall n :: n in u.nodes ==>
      var p := (u.name, n.device, n.name);
      p in before.nodes && p in after.nodes && before.nodes[p].id == after.nodes[p].id
  }

  /** A save keeps the row ids of what it finds by name. */
  ghost predicate KeepsIds(before: Entities, after: Entities, users: seq<User>) {
    && (forall n :: n in before.users && n in after.users ==> before.users[n] == after.users[n])
    && (forall p :: p in before.devices && p in after.devices ==> before.devices[p] == after.devices[p])
    && (forall u :: u in users && NodesKnown(before, u) ==> NodesKept(before, after, u))
  }

  /** The rows that survive when their owners' deletion cascades. */
  function Alive(e: Entities, t: Table, rows: Rows): Rows {
    map k | k in rows && (exists user :: user in e.users && OwnedBy(e, user, t, k.owner)) :: rows[k]
  }

  lemma {:induction false} DigestFound(users: seq<User>, i: nat, t: Table)
    requires DistinctUsers(users) && i < |users|
    ensures (users[i].name, t) in DigestsOf(users) && DigestsOf(users)[(users[i].name, t)] == ContentOf(users[i], t)
  {
    hide ContentOf;
    var last := |users| - 1;
    if i < last {
      DigestFound(users[..last], i, t);
    }
  }

  lemma {:induction false} DigestNamesUser(users: seq<User>, n: Name, t: Table)
    requires (n, t) in DigestsOf(users)
    ensures exists i :: 0 <= i < |users| && users[i].name == n
  {
    hide ContentOf;
    var last := |users| - 1;
    if (n, t) in DigestsOf(users[..last]) {
      DigestNamesUser(users[..last], n, t);
      var i :| 0 <= i < last && users[..last][i].name == n;
      assert users[i].name == n;
    } else {
      assert users[last].name == n;
    }
  }

  /** A skipped scope was there before, with the same content. */
  lemma SkippedIsUnchanged(path: string, before: State, next: State, oldHash: Option<State>, i: nat, t: Table) returns (j: nat)
    requires DistinctUsers(before.users) && DistinctUsers(next.users) && i < |next.users|
    requires !Includes(Changed(Some(SnapshotOf(path, before)), SnapshotOf(path, next), oldHash), next.users[i].name, t)
    ensures oldHash == Some(before)
    ensures j < |before.users| && before.users[j].name == next.users[i].name
    ensures ContentOf(before.users[j], t) == ContentOf(next.users[i], t)
  {
    hide ContentOf;
    DigestFound(next.users, i, t);
    var k := (next.users[i].name, t);
    assert k in DigestsOf(before.users);
    DigestNamesUser(before.users, k.0, t);
    j :| 0 <= j < |before.users| && before.users[j].name == k.0;
    DigestFound(before.users, j, t);
  }

  /**
   And only such a scope is skipped: of the same file, in the state the snapshot was taken of, with a
   user of that name whose content of the table is the same. Without a snapshot everything is written.
   */
  lemma SkippedExactly(was: Snapshot, before: State, path: string, next: State, oldHash: Option<State>, i: nat, t: Table)
    requires DistinctUsers(before.users) && DistinctUsers(next.users) && i < |next.users| && was == SnapshotOf(was.path, before)
    ensures !Includes(Changed(Some(was), SnapshotOf(path, next), oldHash), next.users[i].name, t) <==>
            && was.path == path && oldHash == Some(before)
            && exists j :: 0 <= j < |before.users| && before.users[j].name == next.users[i].name && ContentOf(before.users[j], t) == ContentOf(next.users[i], t)
    ensures Includes(Changed(None, SnapshotOf(path, next), oldHash), next.users[i].name, t)
  {
    hide ContentOf;
    var name := next.users[i].name;
    DigestFound(next.users, i, t);
    if !Includes(Changed(Some(was), SnapshotOf(path, next), oldHash), name, t) {
      var j := SkippedIsUnchanged(path, before, next, oldHash, i, t);
    }
    forall j | 0 <= j < |before.users| && before.users[j].name == name
      ensures (name, t) in was.digests && was.digests[(name, t)] == ContentOf(before.users[j], t)
    {
      DigestFound(before.users, j, t);
    }
  }

  lemma {:induction false} SameDeviceRows(a: Entities, b: Entities, user: Name, devices: seq<Device>)
    requires forall d :: d in devices ==>
      (user, d.name) in a.devices && (user, d.name) in b.devices && a.devices[(user, d.name)] == b.devices[(user, d.name)]
    ensures DeviceRows(a, user, devices) == DeviceRows(b, user, devices)
  {
    if devices != [] {
      SameDeviceRows(a, b, user, devices[..|devices| - 1]);
    }
  }

  lemma {:induction false} SameNodeRows(a: Entities, b: Entities, user: Name, xs: seq<Node>, ys: seq<Node>)
    requires Views(xs) == Views(ys)
    requires forall n :: n in xs ==> (user, n.device, n.name) in a.nodes
    requires forall n :: n in ys ==>
      && (user, n.device, n.name) in a.nodes && (user, n.device, n.name) in b.nodes
      && a.nodes[(user, n.device, n.name)].id == b.nodes[(user, n.device, n.name)].id
    ensures NodeRows(a, user, xs) == NodeRows(b, user, ys)
  {
    SameViews(xs, ys);
    if xs != [] {
      var last := |xs| - 1;
      assert forall i :: 0 <= i < last ==> xs[..last][i] == xs[i] && ys[..last][i] == ys[i];
      assert ViewOf(xs[last]) == ViewOf(ys[last]);
      assert Views(xs[..last]) == Views(ys[..last]);
      SameNodeRows(a, b, user, xs[..last], ys[..last]);
    }
  }

  lemma SameViews(xs: seq<Node>, ys: seq<Node>)
    requires Views(xs) == Views(ys)
    ensures |xs| == |ys|
    ensures forall i :: 0 <= i < |xs| ==> ViewOf(xs[i]) == ViewOf(ys[i])
  {
    forall i | 0 <= i < |xs|
      ensures ViewOf(xs[i]) == ViewOf(ys[i])
    {
      assert Views(xs)[i] == Views(ys)[i];
    }
  }

  /** Equal content under kept ids asks for the same rows. */
  lemma UnchangedRows(before: Entities, after: Entities, u0: User, u1: User, users: seq<User>, t: Table)
    requires u0.name == u1.name && ContentOf(u0, t) == ContentOf(u1, t) && u1 in users
    requires Present(before, u0) && Present(after, u1) && KeepsIds(before, after, users)
    ensures UserRows(before, u0, t) == UserRows(after, u1, t)
  {
    match t
    case DeviceSources => SameDeviceRows(before, after, u0.name, u0.devices);
    case NodeDestinations =>
      ViewsKnown(before, u0, u1);
      assert NodesKept(before, after, u1);
      SameNodeRows(before, after, u0.name, u0.nodes, u1.nodes);
    case _ =>
  }

  lemma ViewsKnown(e: Entities, u0: User, u1: User)
    requires u0.name == u1.name && Views(u0.nodes) == Views(u1.nodes) && Present(e, u0)
    ensures NodesKnown(e, u1)
  {
    SameViews(u0.nodes, u1.nodes);
    forall n | n in u1.nodes
      ensures (u1.name, n.device, n.name) in e.nodes
    {
      var i :| 0 <= i < |u1.nodes| && u1.nodes[i] == n;
      assert ViewOf(u0.nodes[i]) == ViewOf(n);
    }
  }

  lemma DeviceOf(after: Entities, u: User, users: seq<User>, owner: Id) returns (d: Device)
    requires u in users && Exactly(after, users) && OwnedBy(after, u.name, DeviceSources, owner)
    ensures d in u.devices && (u.name, d.name) in after.devices && after.devices[(u.name, d.name)] == owner
  {
    hide AllPresent;
    var p :| p in after.devices && p.0 == u.name && after.devices[p] == owner;
    assert HasDevice(users, p);
    SameUser(users, u);
    d :| d in u.devices && d.name == p.1;
  }

  lemma NodeOf(after: Entities, u: User, users: seq<User>, owner: Id) returns (n: Node)
    requires u in users && Exactly(after, users) && OwnedBy(after, u.name, NodeDestinations, owner)
    ensures n in u.nodes && (u.name, n.device, n.name) in after.nodes && after.nodes[(u.name, n.device, n.name)].id == owner
  {
    hide AllPresent;
    var p :| p in after.nodes && p.0 == u.name && after.nodes[p].id == owner;
    assert HasNode(users, p);
    SameUser(users, u);
    n :| n in u.nodes && n.device == p.1 && n.name == p.2;
  }

  /** An owner that is the user's after the save was the user's before it. */
  lemma UnchangedOwner(before: Entities, after: Entities, u0: User, u1: User, users: seq<User>, t: Table, owner: Id)
    requires u0.name == u1.name && ContentOf(u0, t) == ContentOf(u1, t) && u1 in users
    requires Present(before, u0) && Exactly(after, users) && KeepsIds(before, after, users)
    requires OwnedBy(after, u1.name, t, owner)
    ensures OwnedBy(before, u0.name, t, owner)
  {
    hide Exactly;
    hide HasDevice;
    hide HasNode;
    match t
    case DeviceSources =>
      var d := DeviceOf(after, u1, users, owner);
      assert (u0.name, d.name) in before.devices;
    case NodeDestinations =>
      var n := NodeOf(after, u1, users, owner);
      ViewsKnown(before, u0, u1);
      assert NodesKept(before, after, u1);
      assert (u0.name, n.device, n.name) in before.nodes;
    case _ =>
  }

  lemma UserPresent(e: Entities, users: seq<User>, i: nat)
    requires AllPresent(e, users) && i < |users|
    ensures users[i].name in e.users
  {
    assert Present(e, users[i]);
  }

  lemma SameUser(users: seq<User>, u: User)
    requires DistinctUsers(users) && u in users
    ensures forall v :: v in users && v.name == u.name ==> v == u
  {
  }

  /**
   When the stored tables are what the snapshot's state asked for, every scope whose digest did not
   change already holds its user's rows.
   */
  lemma UnchangedScopeHolds(before: Entities, prev: State, after: Entities, next: State, path: string, i: nat, t: Table)
    requires Sound(before) && Sound(after) && Exactly(before, prev.users) && Exactly(after, next.users)
    requires KeepsIds(before, after, next.users) && i < |next.users|
    requires !Includes(Changed(Some(SnapshotOf(path, prev)), SnapshotOf(path, next), Some(prev)), next.users[i].name, t)
    ensures Holds(after, next.users[i], t, Alive(after, t, Wanted(before, prev.users, t, None)))
  {
    hide ContentOf;
    hide UserRows;
    hide OwnedBy;
    hide Sound;
    hide KeepsIds;
    hide Wanted;
    hide Changed;
    hide Present;
    var j := SkippedIsUnchanged(path, prev, next, Some(prev), i, t);
    var u0, u1 := prev.users[j], next.users[i];
    var all := Wanted(before, prev.users, t, None);
    var rows, mine := Alive(after, t, all), UserRows(after, u1, t);
    UnchangedRows(before, after, u0, u1, next.users, t);
    forall k: RowKey | OwnedBy(after, u1.name, t, k.owner)
      ensures (k in rows <==> k in mine) && (k in rows && k in mine ==> rows[k] == mine[k])
    {
      UnchangedOwner(before, after, u0, u1, next.users, t, k.owner);
      UserPresent(after, next.users, i);
      WantedInScope(before, prev.users, t, None, j, k);
    }
  }
}
