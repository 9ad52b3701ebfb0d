/**
 Saving a state into its database: the entity rows are reconciled by name, then the history tables
 of every user whose digests changed. A save either takes effect as a whole or not at all.
 */
module HistorySave {
  import opened Wrappers
  import opened HistoryRows
  import HistoryRead

  const TABLES := [UserSources, TrafficSamples, UsageHistory, BillingHistory, RecentAccesses, DeviceSources, NodeDestinations]

  lemma EveryTable(t: Table)
    ensures t in TABLES
  {
    match t
    case UserSources => assert TABLES[0] == t;
    case TrafficSamples => assert TABLES[1] == t;
    case UsageHistory => assert TABLES[2] == t;
    case BillingHistory => assert TABLES[3] == t;
    case RecentAccesses => assert TABLES[4] == t;
    case DeviceSources => assert TABLES[5] == t;
    case NodeDestinations => assert TABLES[6] == t;
  }

  type Tables = map<Table, Rows>

  predicate Total(tables: Tables) {
    forall t: Table :: t in tables
  }

  const NO_ROWS: Tables :=
    map[UserSources := map[], TrafficSamples := map[], UsageHistory := map[], BillingHistory := map[], RecentAccesses := map[],
        DeviceSources := map[], NodeDestinations := map[]]

  lemma NoRowsTotal()
    ensures Total(NO_ROWS)
  {
    forall t: Table
      ensures t in NO_ROWS
    {
      match t
      case UserSources =>
      case TrafficSamples =>
      case UsageHistory =>
      case BillingHistory =>
      case RecentAccesses =>
      case DeviceSources =>
      case NodeDestinations =>
    }
  }

  predicate LoginOnce(nodes: map<(Name, Name, Name), NodeRow>) {
    forall a, b :: a in nodes && b in nodes && (nodes[a].auth == nodes[b].auth || nodes[a].uuid == nodes[b].uuid) ==> a == b
  }

  /** What a state is checked for before it is saved: no two nodes share a login. */
  ghost predicate Validated(users: seq<User>) {
    forall i, j, a, b :: At(users, i, a) && At(users, j, b) && users[i].nodes[a].auth == users[j].nodes[b].auth ==> i == j && a == b
  }

  predicate At(users: seq<User>, i: int, a: int) {
    0 <= i < |users| && 0 <= a < |users[i].nodes|
  }

  lemma UnusedId(used: set<Id>)
    ensures exists id: Id :: id !in used
  {
    var top := Bound(used);
    assert top !in used;
  }

  lemma {:induction false} Bound(used: set<Id>) returns (top: Id)
    ensures forall id :: id in used ==> id < top
  {
    if used == {} {
      top := 0;
    } else {
      var id :| id in used;
      var rest := Bound(used - {id});
      top := if id < rest then rest else id + 1;
      assert used == used - {id} + {id};
    }
  }

  function PathOf(u: Name, n: Node): (Name, Name, Name) {
    (u, n.device, n.name)
  }

  class Database {
    var e: Entities
    var tables: Tables
    var hash: Option<State>

    // The keep tables of one save.
    var keepUsers: set<Name>
    var keepDevices: set<(Name, Name)>
    var keepNodes: set<(Name, Name, Name)>
    var keepRows: map<Table, set<RowKey>>

    /** The history tables are those a full write of the stored state makes. */
    ghost predicate Valid()
      reads this
    {
      LoginOnce(e.nodes) && Stored(e, tables, hash)
    }

    constructor ()
      ensures Valid() && hash == None
    {
      NoRowsTotal();
      e, tables, hash := NOBODY, NO_ROWS, None;
      keepUsers, keepDevices, keepNodes, keepRows := {}, {}, {}, map[];
    }

    // ----------------------------------------------------------------------------------------
    // Entities
    // ----------------------------------------------------------------------------------------

    method PutUserRow(name: Name)
      requires Sound(e)
      modifies this`e
      ensures Sound(e) && e.devices == old(e.devices) && e.nodes == old(e.nodes)
      ensures e.users.Keys == old(e.users.Keys) + {name}
      ensures forall n :: n in old(e.users) ==> e.users[n] == old(e.users)[n]
    {
      if name !in e.users {
        UnusedId(e.users.Values);
        var id: Id :| id !in e.users.Values;
        e := e.(users := e.users[name := id]);
      }
    }

    method PutDeviceRow(p: (Name, Name))
      requires Sound(e)
      modifies this`e
      ensures Sound(e) && e.users == old(e.users) && e.nodes == old(e.nodes)
      ensures e.devices.Keys == old(e.devices.Keys) + {p}
      ensures forall q :: q in old(e.devices) ==> e.devices[q] == old(e.devices)[q]
    {
      if p !in e.devices {
        UnusedId(e.devices.Values);
        var id: Id :| id !in e.devices.Values;
        e := e.(devices := e.devices[p := id]);
      }
    }

    /** A node found under another name of the same device keeps its row; a taken name fails the save. */
    method RenameNodeRow(user: Name, n: Node) returns (ok: bool)
      requires Sound(e) && LoginOnce(e.nodes)
      modifies this`e
      ensures Sound(e) && LoginOnce(e.nodes)
      ensures ok <==> !((exists q :: Renamable(old(e), user, n, q)) && PathOf(user, n) in old(e.nodes))
      ensures ok ==> Renamed(old(e), e, user, n)
      ensures !ok ==> e == old(e)
      ensures KnownNode(old(e), user, n) ==> ok
    {
      hide SameOthers;
      var path := PathOf(user, n);
      if q :| q in e.nodes && q.0 == user && q.1 == n.device && q.2 != n.name && e.nodes[q].auth == n.auth && e.nodes[q].uuid == n.uuid {
        assert Renamable(e, user, n, q);
        if path in e.nodes {
          return false;
        }
        RenameIsSound(e, user, n, q);
        e := e.(nodes := (e.nodes - {q})[path := e.nodes[q]]);
        return true;
      }
      NothingToRename(e, user, n);
      return true;
    }

    /** Inserts or updates the row under the node's name; a taken login fails the save. */
    method UpsertNodeRow(user: Name, n: Node) returns (ok: bool)
      requires Sound(e) && LoginOnce(e.nodes)
      modifies this`e
      ensures Sound(e) && LoginOnce(e.nodes)
      ensures ok <==> !Taken(old(e), user, n)
      ensures ok ==> Upserted(old(e), e, user, n)
      ensures KnownNode(old(e), user, n) ==> ok && e == old(e)
    {
      KnownIsAlone(e, user, n);
      hide Sound;
      hide LoginOnce;
      hide Upserted;
      var path := PathOf(user, n);
      if exists q :: q in e.nodes && q != path && (e.nodes[q].auth == n.auth || e.nodes[q].uuid == n.uuid) {
        return false;
      }
      var used := set q | q in e.nodes :: e.nodes[q].id;
      UnusedId(used);
      var unused: Id :| unused !in used;
      var id := if path in e.nodes then e.nodes[path].id else unused;
      UpsertIsSound(e, user, n, id);
      e := e.(nodes := e.nodes[path := NodeRow(id, n.auth, n.uuid)]);
      return true;
    }

    /** One node: its row, found under its login or its name, or a new one. */
    method PutNodeRow(user: Name, n: Node) returns (ok: bool)
      requires Sound(e) && LoginOnce(e.nodes)
      modifies this`e
      ensures Sound(e) && LoginOnce(e.nodes)
      ensures ok <==> !Blocked(old(e), user, n)
      ensures ok ==> NodeStep(old(e), e, user, n)
      ensures KnownNode(old(e), user, n) ==> ok && e == old(e)
    {
      hide Sound;
      hide Taken;
      hide Blocked;
      hide Renamable;
      WhenBlocked(e, user, n);
      hide LoginOnce;
      hide Renamed;
      hide Upserted;
      hide NodeStep;
      ok := RenameNodeRow(user, n);
      if ok {
        RenamedKnown(old(e), e, user, n);
        RenamedTaken(old(e), e, user, n);
        ghost var between := e;
        ok := UpsertNodeRow(user, n);
        if ok {
          RenameThenUpsert(old(e), between, e, user, n);
        }
      }
    }

    /** One user with its devices and nodes; a name met twice in one save fails it. */
    method SaveUser(u: User) returns (ok: bool)
      requires Sound(e) && LoginOnce(e.nodes) && Validated([u])
      modifies this`e, this`keepUsers, this`keepDevices, this`keepNodes
      ensures ok ==> Sound(e) && LoginOnce(e.nodes) && Present(e, u) && DistinctParts(u)
      ensures ok ==> u.name !in old(keepUsers) && keepUsers == old(keepUsers) + {u.name}
      ensures ok ==> keepDevices == old(keepDevices) + DevicePaths(u) && keepNodes == old(keepNodes) + NodePaths(u)
      ensures ok ==> Grows(old(e), e) && HasLogins(e, u) && SameOthers(old(e), e, u.name)
      ensures ok && NodesKnown(old(e), u) ==> NodesKept(old(e), e, u)
      ensures ok ==> Follows(old(e), e, u, |u.nodes|)
      ensures KnownUser(old(e), u) && NotKept(u, old(keepUsers), old(keepDevices), old(keepNodes)) ==> ok && e.nodes == old(e).nodes
    {
      hide Sound;
      hide LoginOnce;
      hide Validated;
      hide NodesKept;
      hide NodesKnown;
      hide Follows;
      if u.name in keepUsers {
        return false;
      }
      keepUsers := keepUsers + {u.name};
      PutUserRow(u.name);
      ok := SaveDevices(u);
      if ok {
        ghost var before := e;
        NodesOnly(old(e), before, u);
        KnownStill(old(e), before, u);
        ok := SaveNodes(u);
        NodesOnlyKept(old(e), before, e, u);
        if ok {
          LoginsTellPaths(e, u);
        }
      }
    }

    method SaveDevices(u: User) returns (ok: bool)
      requires Sound(e)
      modifies this`e, this`keepDevices
      ensures Sound(e) && e.users == old(e.users) && e.nodes == old(e.nodes) && Grows(old(e), e)
      ensures ok ==> keepDevices == old(keepDevices) + DevicePaths(u)
      ensures ok ==> DevicePaths(u) <= e.devices.Keys && DistinctDevices(u.devices)
      ensures DistinctDevices(u.devices) && DevicePaths(u) !! old(keepDevices) ==> ok
    {
      hide Sound;
      for i := 0 to |u.devices|
        invariant Sound(e) && e.users == old(e.users) && e.nodes == old(e.nodes) && Grows(old(e), e)
        invariant keepDevices == old(keepDevices) + DevicePaths(u.(devices := u.devices[..i]))
        invariant DevicePaths(u.(devices := u.devices[..i])) <= e.devices.Keys && DistinctDevices(u.devices[..i])
      {
        hide DevicePaths;
        hide Grows;
        hide DistinctDevices;
        var p := (u.name, u.devices[i].name);
        DeviceIsNew(u, i);
        if p in keepDevices {
          return false;
        }
        keepDevices := keepDevices + {p};
        OneMoreDevice(u, i);
        ghost var before := e;
        PutDeviceRow(p);
        StillGrows(old(e), before, e);
      }
      assert u.devices[..|u.devices|] == u.devices;
      return true;
    }

    method SaveNodes(u: User) returns (ok: bool)
      requires Sound(e) && LoginOnce(e.nodes) && Validated([u])
      modifies this`e, this`keepNodes
      ensures ok ==> e.users == old(e.users) && e.devices == old(e.devices)
      ensures ok ==> Sound(e) && LoginOnce(e.nodes)
      ensures ok ==> keepNodes == old(keepNodes) + NodePaths(u)
      ensures ok ==> HasLogins(e, u) && SameOthers(old(e), e, u.name)
      ensures ok && NodesKnown(old(e), u) ==> NodesKept(old(e), e, u)
      ensures ok ==> Follows(old(e), e, u, |u.nodes|)
      ensures KnownUser(old(e), u) && DevicePaths(u) <= keepDevices && NodePaths(u) !! old(keepNodes) ==> ok && e.nodes == old(e).nodes
    {
      hide KnownUser;
      hide KnownNode;
      hide Sound;
      hide LoginOnce;
      hide Validated;
      hide HasLogin;
      hide NodesKnown;
      hide Traces;
      TracesNothing(e, u);
      for i := 0 to |u.nodes|
        invariant e.users == old(e.users) && e.devices == old(e.devices)
        invariant Sound(e) && LoginOnce(e.nodes)
        invariant keepNodes == old(keepNodes) + NodePaths(u.(nodes := u.nodes[..i]))
        invariant forall j :: 0 <= j < i ==> HasLogin(e, u.name, u.nodes[j])
        invariant SameOthers(old(e), e, u.name)
        invariant Traces(old(e), e, u, i)
        invariant NodesKnown(old(e), u) ==> SameIds(old(e), e)
        invariant KnownUser(old(e), u) && DevicePaths(u) <= keepDevices && NodePaths(u) !! old(keepNodes) ==> e == old(e)
      {
        hide NodePaths;
        hide SameOthers;
        hide SameIds;
        var n := u.nodes[i];
        var path := PathOf(u.name, n);
        PathIsNew(old(e), u, i);
        if (u.name, n.device) !in keepDevices || path in keepNodes {
          return false;
        }
        keepNodes := keepNodes + {path};
        OneMorePath(u, i);
        EarlierLogins(u, i);
        ghost var before := e;
        ok := PutNodeRow(u.name, n);
        if !ok {
          return false;
        }
        NodeStepKeeps(old(e), before, e, u, i);
        NodeStepTraces(old(e), before, e, u, i);
      }
      ok := true;
      TracesFollow(old(e), e, u, |u.nodes|);
      hide Follows;
      NodesAreKept(old(e), e, u);
    }

    /** Reconciles the entity tables with the state; rows of names it no longer has are deleted. */
    method SaveEntities(users: seq<User>) returns (ok: bool)
      requires Sound(e) && LoginOnce(e.nodes) && Validated(users)
      modifies this`e, this`keepUsers, this`keepDevices, this`keepNodes
      ensures ok ==> Sound(e) && LoginOnce(e.nodes) && Exactly(e, users) && KeepsIds(old(e), e, users)
      ensures ok ==> forall u :: u in users ==> DistinctParts(u) && Follows(old(e), e, u, |u.nodes|)
      ensures Known(old(e), users) ==> ok
    {
      hide KnownUser;
      hide NotKept;
      hide DistinctUsers;
      hide DistinctParts;
      hide Sound;
      hide LoginOnce;
      hide Validated;
      hide Progress;
      hide Exactly;
      hide KeepsIds;
      hide Follows;
      keepUsers, keepDevices, keepNodes := {}, {}, {};
      NoProgress(e);
      for i := 0 to |users|
        invariant Sound(e) && LoginOnce(e.nodes)
        invariant Progress(old(e), e, users[..i], keepUsers, keepDevices, keepNodes)
        invariant forall j :: 0 <= j < i ==> DistinctParts(users[j])
        invariant Known(old(e), users) ==> e.nodes == old(e).nodes
      {
        ValidatedOne(users, i);
        if Known(old(e), users) {
          NotYetKept(old(e), e, users, i, keepUsers, keepDevices, keepNodes);
          KnownStill(old(e), e, users[i]);
        }
        ghost var e1, ku, kd, kn := e, keepUsers, keepDevices, keepNodes;
        ok := SaveUser(users[i]);
        if !ok {
          return false;
        }
        MakeProgress(old(e), e1, e, users[..i], users[i], ku, kd, kn);
        assert users[..i + 1] == users[..i] + [users[i]];
      }
      assert users[..|users|] == users;
      TrimIsExact(old(e), e, users, keepUsers, keepDevices, keepNodes);
      e := Trimmed(e, keepUsers, keepDevices, keepNodes);
      return true;
    }

    // ----------------------------------------------------------------------------------------
    // History tables
    // ----------------------------------------------------------------------------------------

    /** Inserts or updates one row; a key met twice in one save fails it. */
    method PutRow(t: Table, k: RowKey, row: Row) returns (ok: bool)
      requires t in tables && t in keepRows
      modifies this`tables, this`keepRows
      ensures ok <==> k !in old(keepRows)[t]
      ensures ok ==> tables == old(tables)[t := old(tables)[t][k := row]] && keepRows == old(keepRows)[t := old(keepRows)[t] + {k}]
    {
      if k in keepRows[t] {
        return false;
      }
      keepRows := keepRows[t := keepRows[t] + {k}];
      tables := tables[t := tables[t][k := row]];
      return true;
    }

    method PutStats(t: Table, id: Id, m: map<string, Stat>) returns (ok: bool)
      requires t in tables && t in keepRows
      modifies this`tables, this`keepRows
      ensures ok ==> Put(old(tables), old(keepRows), tables, keepRows, t, StatRows(id, m))
      ensures Unkept(old(keepRows)[t], id) ==> ok
    {
      hide Put;
      hide Unkept;
      hide StatRows;
      var todo := m.Keys;
      ghost var done: map<string, Stat> := map[];
      PutNothing(tables, keepRows, t);
      NoStats(id);
      while todo != {}
        invariant t in tables && t in keepRows
        invariant todo <= m.Keys && done == map x | x in m && x !in todo :: m[x]
        invariant Put(old(tables), old(keepRows), tables, keepRows, t, StatRows(id, done))
      {
        var x :| x in todo;
        NewStat(old(tables), old(keepRows), tables, keepRows, t, id, done, x);
        PutOne(old(tables), old(keepRows), tables, keepRows, t, StatRows(id, done), RowKey(id, Text(x)), StatRow(m[x]));
        MoreStats(id, done, x, m[x]);
        ok := PutRow(t, RowKey(id, Text(x)), StatRow(m[x]));
        if !ok {
          return false;
        }
        done := done[x := m[x]];
        todo := todo - {x};
      }
      assert done == m;
      return true;
    }

    method PutSequence(t: Table, id: Id, s: seq<Entry>) returns (ok: bool)
      requires t in tables && t in keepRows
      modifies this`tables, this`keepRows
      ensures ok ==> Put(old(tables), old(keepRows), tables, keepRows, t, SequenceRows(id, s))
      ensures Unkept(old(keepRows)[t], id) ==> ok
    {
      hide Put;
      hide Unkept;
      var occurrences: map<string, nat> := map[];
      PutNothing(tables, keepRows, t);
      for i := 0 to |s|
        invariant t in tables && t in keepRows
        invariant forall x: string :: Occurrences(s[..i], x) == if x in occurrences then occurrences[x] else 0
        invariant Put(old(tables), old(keepRows), tables, keepRows, t, SequenceRows(id, s[..i]))
      {
        assert s[..i + 1][..i] == s[..i];
        var identity := Identity(s[i]);
        var occurrence := if identity in occurrences then occurrences[identity] else 0;
        occurrences := occurrences[identity := occurrence + 1];
        NewEntry(old(tables), old(keepRows), tables, keepRows, t, id, s, i);
        PutOne(old(tables), old(keepRows), tables, keepRows, t, SequenceRows(id, s[..i]), RowKey(id, KeyAt(s, i)), EntryRow(i, s[i]));
        ok := PutRow(t, RowKey(id, Sequenced(identity, occurrence)), EntryRow(i, s[i]));
        if !ok {
          return false;
        }
      }
      assert s[..|s|] == s;
      return true;
    }

    method PutAccesses(t: Table, id: Id, s: seq<Access>) returns (ok: bool)
      requires t in tables && t in keepRows
      modifies this`tables, this`keepRows
      ensures ok ==> Put(old(tables), old(keepRows), tables, keepRows, t, AccessRows(id, s)) && DistinctRoutes(s)
      ensures Unkept(old(keepRows)[t], id) && DistinctRoutes(s) ==> ok
    {
      hide Put;
      hide Unkept;
      PutNothing(tables, keepRows, t);
      for i := 0 to |s|
        invariant t in tables && t in keepRows
        invariant Put(old(tables), old(keepRows), tables, keepRows, t, AccessRows(id, s[..i]))
        invariant forall j :: 0 <= j < i ==> RowKey(id, RouteOf(s[j])) in keepRows[t]
        invariant DistinctRoutes(s[..i])
      {
        assert s[..i + 1][..i] == s[..i];
        NewAccess(old(tables), old(keepRows), tables, keepRows, t, id, s, i);
        PutOne(old(tables), old(keepRows), tables, keepRows, t, AccessRows(id, s[..i]), RowKey(id, RouteOf(s[i])), AccessRow(i, s[i]));
        ok := PutRow(t, RowKey(id, RouteOf(s[i])), AccessRow(i, s[i]));
        if !ok {
          return false;
        }
      }
      assert s[..|s|] == s;
      return true;
    }

    method PutDevices(t: Table, u: User) returns (ok: bool)
      requires t in tables && t in keepRows && Present(e, u)
      modifies this`tables, this`keepRows
      ensures ok ==> Put(old(tables), old(keepRows), tables, keepRows, t, DeviceRows(e, u.name, u.devices))
      ensures Sound(e) && DistinctParts(u) && UnkeptUser(e, u.name, DeviceSources, old(keepRows)[t]) ==> ok
    {
      hide StatRows;
      hide Sound;
      hide DistinctParts;
      hide UnkeptUser;
      PutNothing(tables, keepRows, t);
      for i := 0 to |u.devices|
        invariant Put(old(tables), old(keepRows), tables, keepRows, t, DeviceRows(e, u.name, u.devices[..i]))
      {
        hide Put;
        assert u.devices[..i + 1][..i] == u.devices[..i];
        StillThere(old(tables), old(keepRows), tables, keepRows, t, DeviceRows(e, u.name, u.devices[..i]));
        ghost var before, kept := tables, keepRows;
        NextDevice(old(tables), old(keepRows), tables, keepRows, t, e, u, i);
        ok := PutStats(t, e.devices[(u.name, u.devices[i].name)], u.devices[i].sources);
        if !ok {
          return false;
        }
        PutMore(old(tables), old(keepRows), before, kept, tables, keepRows, t, DeviceRows(e, u.name, u.devices[..i]),
                StatRows(e.devices[(u.name, u.devices[i].name)], u.devices[i].sources));
      }
      assert u.devices[..|u.devices|] == u.devices;
      return true;
    }

    method PutNodes(t: Table, u: User) returns (ok: bool)
      requires t in tables && t in keepRows && Present(e, u)
      modifies this`tables, this`keepRows
      ensures ok ==> Put(old(tables), old(keepRows), tables, keepRows, t, NodeRows(e, u.name, u.nodes))
      ensures Sound(e) && DistinctParts(u) && UnkeptUser(e, u.name, NodeDestinations, old(keepRows)[t]) ==> ok
    {
      hide StatRows;
      hide Sound;
      hide DistinctParts;
      hide UnkeptUser;
      PutNothing(tables, keepRows, t);
      for i := 0 to |u.nodes|
        invariant Put(old(tables), old(keepRows), tables, keepRows, t, NodeRows(e, u.name, u.nodes[..i]))
      {
        hide Put;
        assert u.nodes[..i + 1][..i] == u.nodes[..i];
        StillThere(old(tables), old(keepRows), tables, keepRows, t, NodeRows(e, u.name, u.nodes[..i]));
        ghost var before, kept := tables, keepRows;
        NextNode(old(tables), old(keepRows), tables, keepRows, t, e, u, i);
        ok := PutStats(t, e.nodes[PathOf(u.name, u.nodes[i])].id, u.nodes[i].destinations);
        if !ok {
          return false;
        }
        PutMore(old(tables), old(keepRows), before, kept, tables, keepRows, t, NodeRows(e, u.name, u.nodes[..i]),
                StatRows(e.nodes[PathOf(u.name, u.nodes[i])].id, u.nodes[i].destinations));
      }
      assert u.nodes[..|u.nodes|] == u.nodes;
      return true;
    }

    method PutTable(u: User, t: Table) returns (ok: bool)
      requires t in tables && t in keepRows && Present(e, u)
      modifies this`tables, this`keepRows
      ensures ok ==> Put(old(tables), old(keepRows), tables, keepRows, t, UserRows(e, u, t))
      ensures ok ==> Writable(u, t)
      ensures Sound(e) && DistinctParts(u) && UnkeptUser(e, u.name, t, old(keepRows)[t]) && Writable(u, t) ==> ok
    {
      hide Put;
      hide Sound;
      hide DistinctParts;
      match t
      case UserSources => ok := PutStats(t, e.users[u.name], u.sources);
      case TrafficSamples => ok := PutSequence(t, e.users[u.name], u.samples);
      case UsageHistory => ok := PutSequence(t, e.users[u.name], u.usage);
      case BillingHistory => ok := PutSequence(t, e.users[u.name], u.billing);
      case RecentAccesses => ok := PutAccesses(t, e.users[u.name], u.accesses);
      case DeviceSources => ok := PutDevices(t, u);
      case NodeDestinations => ok := PutNodes(t, u);
    }

    /** The changed tables of one user. */
    method PutUserHistory(u: User, c: Changes) returns (ok: bool)
      requires Total(tables) && keepRows.Keys == tables.Keys && Present(e, u)
      modifies this`tables, this`keepRows
      ensures ok ==> PutTables(old(tables), old(keepRows), tables, keepRows, e, u, c, TABLES)
      ensures ok ==> WritableParts(u, c)
      ensures Sound(e) && DistinctParts(u) && UnkeptAll(e, u.name, old(keepRows)) && WritableParts(u, c) ==> ok
    {
      hide Sound;
      hide DistinctParts;
      hide UnkeptUser;
      hide Present;
      hide PutTables;
      hide Put;
      hide UserRows;
      PutTablesNone(tables, keepRows, e, u, c);
      assert TABLES[..0] == [];
      for j := 0 to |TABLES|
        invariant tables.Keys == old(tables.Keys) && keepRows.Keys == tables.Keys
        invariant PutTables(old(tables), old(keepRows), tables, keepRows, e, u, c, TABLES[..j])
        invariant forall t :: t in TABLES[..j] && Includes(c, u.name, t) ==> Writable(u, t)
      {
        var t := TABLES[j];
        TablesDiffer(j);
        NotYetPut(old(tables), old(keepRows), tables, keepRows, e, u, c, TABLES[..j], t);
        ghost var before, kept := tables, keepRows;
        PutNothing(tables, keepRows, t);
        if Includes(c, u.name, t) {
          ok := PutTable(u, t);
          if !ok {
            return false;
          }
        }
        assert Put(before, kept, tables, keepRows, t, Mine(e, u, t, c));
        StillThere(before, kept, tables, keepRows, t, Mine(e, u, t, c));
        assert TABLES[..j + 1] == TABLES[..j] + [t];
        PutTablesNext(old(tables), old(keepRows), before, kept, tables, keepRows, e, u, c, TABLES[..j], t);
      }
      assert TABLES[..|TABLES|] == TABLES;
      EveryTable(RecentAccesses);
      return true;
    }

    /**
     Upserts the changed scopes and deletes from them what was not kept. Only a route met twice in a
     written scope can fail it.
     */
    method WriteHistory(users: seq<User>, c: Changes) returns (ok: bool)
      requires Total(tables) && AllPresent(e, users) && Sound(e) && DistinctUsers(users)
      requires forall u :: u in users ==> DistinctParts(u)
      modifies this`tables, this`keepRows
      ensures ok <==> forall u :: u in users ==> WritableParts(u, c)
      ensures ok ==> tables.Keys == old(tables.Keys)
      ensures ok ==> forall t :: t in tables ==> tables[t] == Reconciled(e, users, t, c, old(tables)[t])
    {
      hide PutUsers;
      hide PutTables;
      hide Wanted;
      hide OwnedBy;
      hide Includes;
      hide Sound;
      hide DistinctParts;
      hide UnkeptAll;
      hide WritableParts;
      hide DistinctUsers;
      keepRows := map t | t in tables :: {};
      PutUsersNone(tables, keepRows, e, c);
      for i := 0 to |users|
        invariant tables.Keys == old(tables.Keys) && keepRows.Keys == tables.Keys
        invariant PutUsers(old(tables), tables, keepRows, e, users[..i], c)
        invariant forall j :: 0 <= j < i ==> WritableParts(users[j], c)
      {
        UsersBefore(old(tables), tables, keepRows, e, users, i, c);
        ghost var before, kept := tables, keepRows;
        ok := PutUserHistory(users[i], c);
        if !ok {
          return false;
        }
        PutUsersNext(old(tables), before, kept, tables, keepRows, e, users[..i], users[i], c);
        assert users[..i + 1] == users[..i] + [users[i]];
        SameTables(old(tables), tables, keepRows, e, users[..i + 1], c);
      }
      assert users[..|users|] == users;
      SameTables(old(tables), tables, keepRows, e, users, c);
      tables := map t | t in tables :: Swept(e, users, t, c, tables[t], keepRows[t]);
      return true;
    }

    /**
     Saves a state, reconciling only what its snapshot says has changed when the snapshot is of the
     state the database holds. The tables are then those of a full write, whichever was skipped. A
     state whose names and logins the database knows fails exactly when a user has a route twice.
     */
    method Save(path: string, state: State, snapshot: Option<Snapshot>) returns (r: Option<Snapshot>)
      requires Valid() && Validated(state.users) && WellMade(snapshot)
      modifies this
      ensures Valid()
      ensures r.Some? ==> hash == Some(state) && r.value == SnapshotOf(path, state)
      ensures r.None? ==> e == old(e) && tables == old(tables) && hash == old(hash)
      ensures r.Some? ==> AllWritable(state.users)
      ensures Known(old(e), state.users) && AllWritable(state.users) ==> r.Some?
    {
      hide Known;
      hide Exactly;
      hide Wanted;
      hide Sound;
      hide LoginOnce;
      hide Validated;
      hide KeepsIds;
      hide Reconciled;
      hide Alive;
      hide Changed;
      hide SnapshotOf;
      hide DistinctParts;
      hide AllPresent;
      hide AllWritable;
      hide DistinctUsers;
      hide WellMade;
      var next := SnapshotOf(path, state);
      var c := Changed(snapshot, next, hash);
      if hash == Some(state) {
        return Some(next);
      }
      var before := (e, tables);
      var ok := SaveEntities(state.users);
      if !ok {
        e := before.0;
        return None;
      }
      ExactlyIs(e, state.users);
      SkippedIsWritable(before.0, tables, hash, state, path, snapshot);
      forall t: Table
        ensures Reconciled(e, state.users, t, c, Alive(e, t, tables[t])) == Wanted(e, state.users, t, None)
      {
        SavedTableIsFull(before.0, tables, hash, e, state, path, snapshot, t);
      }
      tables := map t | t in tables :: Alive(e, t, tables[t]);
      ok := WriteHistory(state.users, c);
      if !ok {
        e, tables := before.0, before.1;
        return None;
      }
      hash := Some(state);
      return Some(next);
    }
  }

  // ------------------------------------------------------------------------------------------
  // The save agrees with the full write
  // ------------------------------------------------------------------------------------------

  /** No user's recent accesses name a route twice. */
  predicate AllWritable(users: seq<User>) {
    forall u :: u in users ==> DistinctRoutes(u.accesses)
  }

  predicate AllDistinct(users: seq<User>) {
    forall u :: u in users ==> DistinctParts(u)
  }

  /** The tables a store of this hash holds. */
  ghost predicate Stored(e: Entities, tables: Tables, hash: Option<State>) {
    && Sound(e) && Total(tables)
    && match hash
       case None => e == NOBODY && tables == NO_ROWS
       case Some(s) => Exactly(e, s.users) && AllWritable(s.users) && AllDistinct(s.users) && forall t: Table :: tables[t] == Wanted(e, s.users, t, None)
  }

  predicate WellMade(s: Option<Snapshot>) {
    s.Some? ==> s.value == SnapshotOf(s.value.path, s.value.stateHash)
  }

  lemma AliveIsOwned(e: Entities, users: seq<User>, t: Table, rows: Rows)
    requires Exactly(e, users)
    ensures AllOwned(e, users, t, Alive(e, t, rows))
  {
    hide OwnedBy;
    hide AllPresent;
    hide HasDevice;
    hide HasNode;
    forall k | k in Alive(e, t, rows)
      ensures exists i :: 0 <= i < |users| && OwnedBy(e, users[i].name, t, k.owner)
    {
      var name :| name in e.users && OwnedBy(e, name, t, k.owner);
      assert HasUser(users, name);
      var u :| u in users && u.name == name;
      var i :| 0 <= i < |users| && users[i] == u;
    }
  }

  /** Whatever a snapshot allows to skip, the save leaves every table as a full write would. */
  lemma SavedTableIsFull(before: Entities, tables: Tables, hash: Option<State>, after: Entities, state: State, path: string,
                         snapshot: Option<Snapshot>, t: Table)
    requires Stored(before, tables, hash) && WellMade(snapshot)
    requires Sound(after) && Exactly(after, state.users) && KeepsIds(before, after, state.users)
    ensures var c := Changed(snapshot, SnapshotOf(path, state), hash);
            Reconciled(after, state.users, t, c, Alive(after, t, tables[t])) == Wanted(after, state.users, t, None)
  {
    hide Wanted;
    hide Reconciled;
    hide Sound;
    hide KeepsIds;
    hide Alive;
    hide AllOwned;
    hide AllPresent;
    hide Holds;
    hide HasUser;
    hide HasDevice;
    hide HasNode;
    var c := Changed(snapshot, SnapshotOf(path, state), hash);
    var rows := Alive(after, t, tables[t]);
    AliveIsOwned(after, state.users, t, tables[t]);
    forall u | u in state.users && !Includes(c, u.name, t)
      ensures Present(after, u) && Holds(after, u, t, rows)
    {
      var i :| 0 <= i < |state.users| && state.users[i] == u;
      PresentAt(after, state.users, i);
      UnchangedScopeHolds(before, hash.value, after, state, path, i, t);
    }
    PartialWriteIsFull(after, state.users, t, c, rows);
  }

  lemma ExactlyIs(e: Entities, users: seq<User>)
    requires Exactly(e, users)
    ensures DistinctUsers(users) && AllPresent(e, users)
  {
  }

  lemma PresentAt(e: Entities, users: seq<User>, i: nat)
    requires AllPresent(e, users) && i < |users|
    ensures Present(e, users[i])
  {
  }

  /** The routes of a skipped user were stored once already. */
  lemma SkippedIsWritable(before: Entities, tables: Tables, hash: Option<State>, state: State, path: string, snapshot: Option<Snapshot>)
    requires Stored(before, tables, hash) && WellMade(snapshot) && DistinctUsers(state.users)
    ensures var c := Changed(snapshot, SnapshotOf(path, state), hash);
            AllWritable(state.users) <==> forall u :: u in state.users ==> WritableParts(u, c)
  {
    hide DistinctRoutes;
    hide Wanted;
    var c := Changed(snapshot, SnapshotOf(path, state), hash);
    forall u | u in state.users && !Includes(c, u.name, RecentAccesses)
      ensures DistinctRoutes(u.accesses)
    {
      var i :| 0 <= i < |state.users| && state.users[i] == u;
      var j := SkippedIsUnchanged(path, hash.value, state, hash, i, RecentAccesses);
      assert hash.value.users[j] in hash.value.users;
    }
  }

  /** A stored state reads back, user by user, as it was saved. */
  lemma StoredReadsBack(e: Entities, tables: Tables, s: State, i: nat, keys: seq<RowKey>)
    requires Stored(e, tables, Some(s)) && i < |s.users|
    ensures s.users[i].name in e.users
    ensures var u, id := s.users[i], e.users[s.users[i].name];
            && HistoryRead.ReadStats(tables[UserSources], id) == u.sources
            && HistoryRead.ReadsAs(tables[TrafficSamples], id, keys, u.samples)
            && HistoryRead.ReadsAs(tables[UsageHistory], id, keys, u.usage)
            && HistoryRead.ReadsAs(tables[BillingHistory], id, keys, u.billing)
            && HistoryRead.ReadsAccesses(tables[RecentAccesses], id, keys, u.accesses)
            && (forall j :: 0 <= j < |u.devices| ==>
                  var p := (u.name, u.devices[j].name);
                  p in e.devices && HistoryRead.ReadStats(tables[DeviceSources], e.devices[p]) == u.devices[j].sources)
            && (forall j :: 0 <= j < |u.nodes| ==>
                  var p := PathOf(u.name, u.nodes[j]);
                  p in e.nodes && HistoryRead.ReadStats(tables[NodeDestinations], e.nodes[p].id) == u.nodes[j].destinations)
  {
    hide HistoryRead.ReadStats;
    hide Wanted;
    hide Sound;
    hide HistoryRead.ReadsAs;
    ExactlyIs(e, s.users);
    HistoryRead.SavedReadsBack(e, s.users, i, keys);
    assert s.users[i] in s.users;
    forall j | 0 <= j < |s.users[i].devices|
      ensures (s.users[i].name, s.users[i].devices[j].name) in e.devices
      ensures HistoryRead.ReadStats(tables[DeviceSources], e.devices[(s.users[i].name, s.users[i].devices[j].name)]) == s.users[i].devices[j].sources
    {
      HistoryRead.DeviceReadsBack(e, s.users, i, j);
    }
    forall j | 0 <= j < |s.users[i].nodes|
      ensures PathOf(s.users[i].name, s.users[i].nodes[j]) in e.nodes
      ensures HistoryRead.ReadStats(tables[NodeDestinations], e.nodes[PathOf(s.users[i].name, s.users[i].nodes[j])].id) == s.users[i].nodes[j].destinations
    {
      HistoryRead.NodeReadsBack(e, s.users, i, j);
    }
  }

  /** What is left of a table when the rows of the written scopes that were not kept are deleted. */
  function Swept(e: Entities, users: seq<User>, t: Table, c: Changes, rows: Rows, kept: set<RowKey>): Rows {
    map k | k in rows && (k in kept || !InScope(e, users, t, c, k.owner)) :: rows[k]
  }

  lemma SameTables(before: Tables, after: Tables, kept: Kept, e: Entities, done: seq<User>, c: Changes)
    requires AllPresent(e, done) && PutUsers(before, after, kept, e, done, c)
    ensures after.Keys == before.Keys && kept.Keys == before.Keys
    ensures forall t :: t in before ==> Swept(e, done, t, c, after[t], kept[t]) == Reconciled(e, done, t, c, before[t])
  {
    hide Wanted;
    hide InScope;
  }

  type Kept = map<Table, set<RowKey>>

  /** The rows went into a table and its keep table. */
  ghost predicate Added(before: Rows, kept: set<RowKey>, after: Rows, kept': set<RowKey>, rows: Rows) {
    after == before + rows && kept' == kept + rows.Keys
  }

  lemma AddedNothing(rows: Rows, kept: set<RowKey>)
    ensures Added(rows, kept, rows, kept, map[])
  {
  }

  lemma AddedOne(before: Rows, kept: set<RowKey>, after: Rows, kept': set<RowKey>, rows: Rows, k: RowKey, row: Row)
    requires Added(before, kept, after, kept', rows)
    ensures Added(before, kept, after[k := row], kept' + {k}, rows[k := row])
  {
    assert before + rows[k := row] == (before + rows)[k := row];
  }

  lemma AddedMore(a: Rows, ka: set<RowKey>, b: Rows, kb: set<RowKey>, c: Rows, kc: set<RowKey>, rows: Rows, more: Rows)
    requires Added(a, ka, b, kb, rows) && Added(b, kb, c, kc, more)
    ensures Added(a, ka, c, kc, rows + more)
  {
    assert a + (rows + more) == a + rows + more;
    assert (rows + more).Keys == rows.Keys + more.Keys;
  }

  /** The rows went into one table and its keep table, and nothing else changed. */
  ghost predicate Put(before: Tables, kept: Kept, after: Tables, kept': Kept, t: Table, rows: Rows) {
    && after.Keys == before.Keys && kept'.Keys == kept.Keys && t in before && t in kept
    && Added(before[t], kept[t], after[t], kept'[t], rows)
    && (forall x :: x in before && x != t ==> after[x] == before[x])
    && (forall x :: x in kept && x != t ==> kept'[x] == kept[x])
  }

  lemma PutNothing(before: Tables, kept: Kept, t: Table)
    requires t in before && t in kept
    ensures Put(before, kept, before, kept, t, map[])
  {
    AddedNothing(before[t], kept[t]);
  }

  lemma StillThere(before: Tables, kept: Kept, after: Tables, kept': Kept, t: Table, rows: Rows)
    requires Put(before, kept, after, kept', t, rows)
    ensures after.Keys == before.Keys && kept'.Keys == kept.Keys && t in before && t in kept
  {
  }

  lemma PutOne(before: Tables, kept: Kept, after: Tables, kept': Kept, t: Table, rows: Rows, k: RowKey, row: Row)
    requires Put(before, kept, after, kept', t, rows)
    ensures t in after && t in kept'
    ensures Put(before, kept, after[t := after[t][k := row]], kept'[t := kept'[t] + {k}], t, rows[k := row])
  {
    hide Added;
    AddedOne(before[t], kept[t], after[t], kept'[t], rows, k, row);
  }

  lemma PutMore(a: Tables, ka: Kept, b: Tables, kb: Kept, c: Tables, kc: Kept, t: Table, rows: Rows, more: Rows)
    requires Put(a, ka, b, kb, t, rows) && Put(b, kb, c, kc, t, more)
    ensures Put(a, ka, c, kc, t, rows + more)
  {
    hide Added;
    AddedMore(a[t], ka[t], b[t], kb[t], c[t], kc[t], rows, more);
  }

  /** No row of this owner has been written yet. */
  predicate Unkept(kept: set<RowKey>, id: Id) {
    forall k :: k in kept ==> k.owner != id
  }

  lemma NewStat(before: Tables, kept: Kept, after: Tables, kept': Kept, t: Table, id: Id, done: map<string, Stat>, x: string)
    requires Put(before, kept, after, kept', t, StatRows(id, done)) && x !in done
    ensures Unkept(kept[t], id) ==> RowKey(id, Text(x)) !in kept'[t]
  {
  }

  lemma NewEntry(before: Tables, kept: Kept, after: Tables, kept': Kept, t: Table, id: Id, s: seq<Entry>, i: nat)
    requires i < |s| && Put(before, kept, after, kept', t, SequenceRows(id, s[..i]))
    ensures Unkept(kept[t], id) ==> RowKey(id, KeyAt(s, i)) !in kept'[t]
  {
    hide SequenceRows;
    hide KeyAt;
    HistoryRead.NextKeyIsNew(id, s, i);
  }

  lemma NewAccess(before: Tables, kept: Kept, after: Tables, kept': Kept, t: Table, id: Id, s: seq<Access>, i: nat)
    requires i < |s| && Put(before, kept, after, kept', t, AccessRows(id, s[..i]))
    ensures Unkept(kept[t], id) && DistinctRoutes(s) ==> RowKey(id, RouteOf(s[i])) !in kept'[t]
  {
    hide AccessRows;
    var k := RowKey(id, RouteOf(s[i]));
    if k in AccessRows(id, s[..i]) {
      HistoryRead.AccessRowsOnly(id, s[..i], k);
      var j :| 0 <= j < i && k == RowKey(id, RouteOf(s[..i][j]));
      assert RouteOf(s[j]) == RouteOf(s[i]);
    }
  }

  /** No device name and no node name occurs twice. */
  predicate DistinctParts(u: User) {
    && DistinctDevices(u.devices)
    && (forall i, j :: 0 <= i < j < |u.nodes| ==> PathOf(u.name, u.nodes[i]) != PathOf(u.name, u.nodes[j]))
  }

  /** Recent accesses are keyed by what was reached, so the same route twice cannot be stored. */
  predicate Writable(u: User, t: Table) {
    t == RecentAccesses ==> DistinctRoutes(u.accesses)
  }

  predicate WritableParts(u: User, c: Changes) {
    Includes(c, u.name, RecentAccesses) ==> DistinctRoutes(u.accesses)
  }

  predicate UnkeptUser(e: Entities, user: Name, t: Table, kept: set<RowKey>) {
    forall k :: k in kept ==> !OwnedBy(e, user, t, k.owner)
  }

  predicate UnkeptAll(e: Entities, user: Name, kept: Kept) {
    forall t :: t in kept ==> UnkeptUser(e, user, t, kept[t])
  }

  lemma NextDevice(before: Tables, kept: Kept, after: Tables, kept': Kept, t: Table, e: Entities, u: User, i: nat)
    requires i < |u.devices| && Present(e, u) && Put(before, kept, after, kept', t, DeviceRows(e, u.name, u.devices[..i]))
    ensures Sound(e) && DistinctParts(u) && UnkeptUser(e, u.name, DeviceSources, kept[t]) ==>
              Unkept(kept'[t], e.devices[(u.name, u.devices[i].name)])
  {
    hide DeviceRows;
    if Sound(e) && DistinctParts(u) && UnkeptUser(e, u.name, DeviceSources, kept[t]) {
      forall k | k in kept'[t]
        ensures k.owner != e.devices[(u.name, u.devices[i].name)]
      {
        if k in DeviceRows(e, u.name, u.devices[..i]) {
          DeviceRowsOwned(e, u.name, u.devices[..i], k);
          var j :| 0 <= j < i && e.devices[(u.name, u.devices[..i][j].name)] == k.owner;
          assert u.devices[j].name != u.devices[i].name;
        }
      }
    }
  }

  lemma NextNode(before: Tables, kept: Kept, after: Tables, kept': Kept, t: Table, e: Entities, u: User, i: nat)
    requires i < |u.nodes| && Present(e, u) && Put(before, kept, after, kept', t, NodeRows(e, u.name, u.nodes[..i]))
    ensures Sound(e) && DistinctParts(u) && UnkeptUser(e, u.name, NodeDestinations, kept[t]) ==>
              Unkept(kept'[t], e.nodes[PathOf(u.name, u.nodes[i])].id)
  {
    hide NodeRows;
    if Sound(e) && DistinctParts(u) && UnkeptUser(e, u.name, NodeDestinations, kept[t]) {
      forall k | k in kept'[t]
        ensures k.owner != e.nodes[PathOf(u.name, u.nodes[i])].id
      {
        if k in NodeRows(e, u.name, u.nodes[..i]) {
          NodeRowsOwned(e, u.name, u.nodes[..i], k);
          var j :| 0 <= j < i && e.nodes[PathOf(u.name, u.nodes[..i][j])].id == k.owner;
          assert PathOf(u.name, u.nodes[j]) != PathOf(u.name, u.nodes[i]);
        }
      }
    }
  }

  lemma NotYetPut(before: Tables, kept: Kept, after: Tables, kept': Kept, e: Entities, u: User, c: Changes, done: seq<Table>, t: Table)
    requires Present(e, u) && PutTables(before, kept, after, kept', e, u, c, done) && t !in done && t in before
    ensures t in kept && t in kept' && kept'[t] == kept[t]
    ensures UnkeptAll(e, u.name, kept) ==> UnkeptUser(e, u.name, t, kept'[t])
  {
    hide UnkeptUser;
    hide Added;
  }

  lemma UsersBefore(before: Tables, after: Tables, kept: Kept, e: Entities, users: seq<User>, i: nat, c: Changes)
    requires Sound(e) && DistinctUsers(users) && AllPresent(e, users) && i < |users|
    requires PutUsers(before, after, kept, e, users[..i], c)
    ensures UnkeptAll(e, users[i].name, kept)
  {
    hide Wanted;
    hide OwnedBy;
    hide Sound;
    hide Present;
    assert AllPresent(e, users[..i]);
    forall t, k | t in kept && k in kept[t]
      ensures !OwnedBy(e, users[i].name, t, k.owner)
    {
      assert Added(before[t], {}, after[t], kept[t], Wanted(e, users[..i], t, c));
      WantedOwned(e, users[..i], t, c, k);
      var j :| 0 <= j < i && OwnedBy(e, users[..i][j].name, t, k.owner);
      if OwnedBy(e, users[i].name, t, k.owner) {
        OneOwner(e, users[i].name, users[j].name, t, k.owner);
      }
    }
  }

  /** What a user asks for in a table that is to be written. */
  function Mine(e: Entities, u: User, t: Table, c: Changes): Rows
    requires Present(e, u)
  {
    if Includes(c, u.name, t) then UserRows(e, u, t) else map[]
  }

  /** A user's rows are in the tables in `done` and in no other yet. */
  ghost predicate PutTables(before: Tables, kept: Kept, after: Tables, kept': Kept, e: Entities, u: User, c: Changes, done: seq<Table>)
    requires Present(e, u)
  {
    && after.Keys == before.Keys && kept'.Keys == kept.Keys && before.Keys == kept.Keys
    && (forall t :: t in before && t in done ==> Added(before[t], kept[t], after[t], kept'[t], Mine(e, u, t, c)))
    && (forall t :: t in before && t !in done ==> after[t] == before[t] && kept'[t] == kept[t])
  }

  lemma PutTablesNone(before: Tables, kept: Kept, e: Entities, u: User, c: Changes)
    requires Present(e, u) && before.Keys == kept.Keys
    ensures PutTables(before, kept, before, kept, e, u, c, [])
  {
  }

  lemma PutTablesNext(a: Tables, ka: Kept, b: Tables, kb: Kept, x: Tables, kx: Kept, e: Entities, u: User, c: Changes, done: seq<Table>, t: Table)
    requires Present(e, u) && PutTables(a, ka, b, kb, e, u, c, done) && t !in done && Put(b, kb, x, kx, t, Mine(e, u, t, c))
    ensures PutTables(a, ka, x, kx, e, u, c, done + [t])
  {
    hide Mine;
    hide Present;
    hide Added;
  }

  /** The rows of the users in `done` are in all tables. */
  ghost predicate PutUsers(before: Tables, after: Tables, kept: Kept, e: Entities, done: seq<User>, c: Changes)
    requires AllPresent(e, done)
  {
    && after.Keys == before.Keys && kept.Keys == before.Keys
    && forall t :: t in before ==> Added(before[t], {}, after[t], kept[t], Wanted(e, done, t, c))
  }

  lemma PutUsersNone(before: Tables, kept: Kept, e: Entities, c: Changes)
    requires kept.Keys == before.Keys && forall t :: t in kept ==> kept[t] == {}
    ensures PutUsers(before, before, kept, e, [], c)
  {
    hide Added;
    forall t | t in before
      ensures Added(before[t], {}, before[t], kept[t], Wanted(e, [], t, c))
    {
      AddedNothing(before[t], {});
    }
  }

  lemma WantedNext(e: Entities, done: seq<User>, u: User, t: Table, c: Changes)
    requires AllPresent(e, done) && Present(e, u)
    ensures AllPresent(e, done + [u]) && Wanted(e, done + [u], t, c) == Wanted(e, done, t, c) + Mine(e, u, t, c)
  {
    hide Present;
    hide UserRows;
    assert (done + [u])[..|done|] == done;
  }

  lemma PutUsersNext(a: Tables, b: Tables, kb: Kept, x: Tables, kx: Kept, e: Entities, done: seq<User>, u: User, c: Changes)
    requires AllPresent(e, done) && Present(e, u) && PutUsers(a, b, kb, e, done, c) && PutTables(b, kb, x, kx, e, u, c, TABLES)
    ensures AllPresent(e, done + [u]) && PutUsers(a, x, kx, e, done + [u], c)
  {
    hide Present;
    hide AllPresent;
    hide Wanted;
    hide Mine;
    hide Added;
    WantedNext(e, done, u, UserSources, c);
    forall t | t in a
      ensures Added(a[t], {}, x[t], kx[t], Wanted(e, done + [u], t, c))
    {
      EveryTable(t);
      WantedNext(e, done, u, t, c);
      AddedMore(a[t], {}, b[t], kb[t], x[t], kx[t], Wanted(e, done, t, c), Mine(e, u, t, c));
    }
  }

  lemma NoStats(id: Id)
    ensures StatRows(id, map[]) == map[]
  {
  }

  lemma MoreStats(id: Id, m: map<string, Stat>, x: string, stat: Stat)
    ensures StatRows(id, m[x := stat]) == StatRows(id, m)[RowKey(id, Text(x)) := StatRow(stat)]
  {
  }

  lemma TablesDiffer(j: nat)
    requires j < |TABLES|
    ensures TABLES[j] !in TABLES[..j]
    ensures forall t: Table :: t in TABLES[..j + 1] <==> t in TABLES[..j] || t == TABLES[j]
  {
    assert TABLES[..j + 1] == TABLES[..j] + [TABLES[j]];
  }

  /** The entity tables after the rows without a name in the keep tables are deleted. */
  function Trimmed(e: Entities, ku: set<Name>, kd: set<(Name, Name)>, kn: set<(Name, Name, Name)>): Entities {
    Entities(map n | n in e.users && n in ku :: e.users[n], map p | p in e.devices && p in kd :: e.devices[p],
             map p | p in e.nodes && p in kn :: e.nodes[p])
  }

  /** The users in `done` have their rows, the keep tables name exactly these, and no other node has changed. */
  ghost predicate Progress(before: Entities, e: Entities, done: seq<User>, ku: set<Name>, kd: set<(Name, Name)>, kn: set<(Name, Name, Name)>) {
    && DistinctUsers(done) && Grows(before, e)
    && (forall u :: u in done ==>
      && Present(e, u) && HasLogins(e, u) && (NodesKnown(before, u) ==> NodesKept(before, e, u))
      && Follows(before, e, u, |u.nodes|))
    && (forall n :: n in ku <==> HasUser(done, n))
    && (forall p :: p in kd <==> HasDevice(done, p))
    && (forall p :: p in kn <==> HasNode(done, p))
    && (forall p: (Name, Name, Name) :: p.0 !in ku ==>
      (p in e.nodes <==> p in before.nodes) && (p in e.nodes && p in before.nodes ==> e.nodes[p] == before.nodes[p]))
  }

  lemma NoProgress(e: Entities)
    ensures Progress(e, e, [], {}, {}, {})
  {
  }

  lemma ValidatedOne(users: seq<User>, i: nat)
    requires Validated(users) && i < |users|
    ensures Validated([users[i]])
  {
    forall a, b | At([users[i]], 0, a) && At([users[i]], 0, b) && users[i].nodes[a].auth == users[i].nodes[b].auth
      ensures a == b
    {
      assert At(users, i, a) && At(users, i, b);
    }
  }

  /** A user saved earlier is not disturbed by the next one. */
  lemma OthersKept(before: Entities, e: Entities, e': Entities, u: User, v: User)
    requires u.name != v.name && Grows(e, e') && SameOthers(e, e', u.name)
    requires Present(e, v) && HasLogins(e, v) && (NodesKnown(before, v) ==> NodesKept(before, e, v))
    requires Follows(before, e, v, |v.nodes|)
    ensures Present(e', v) && HasLogins(e', v) && (NodesKnown(before, v) ==> NodesKept(before, e', v))
    ensures Follows(before, e', v, |v.nodes|)
  {
    hide Met;
    forall n | n in v.nodes
      ensures PathOf(v.name, n) in e'.nodes && e'.nodes[PathOf(v.name, n)] == e.nodes[PathOf(v.name, n)]
    {
    }
  }

  lemma KeptFromTheStart(before: Entities, e: Entities, e': Entities, u: User)
    requires forall p: (Name, Name, Name) :: p.0 == u.name ==>
               (p in e.nodes <==> p in before.nodes) && (p in e.nodes && p in before.nodes ==> e.nodes[p] == before.nodes[p])
    requires NodesKnown(e, u) ==> NodesKept(e, e', u)
    requires Follows(e, e', u, |u.nodes|)
    ensures NodesKnown(before, u) ==> NodesKept(before, e', u)
    ensures Follows(before, e', u, |u.nodes|)
  {
    assert forall n, q :: Matches(before, u.name, n, q) ==> Matches(e, u.name, n, q) && e.nodes[q] == before.nodes[q];
    if NodesKnown(before, u) {
      assert NodesKnown(e, u);
      forall n | n in u.nodes
        ensures before.nodes[PathOf(u.name, n)] == e.nodes[PathOf(u.name, n)]
      {
      }
    }
  }

  lemma ExtendNames(done: seq<User>, u: User)
    ensures forall n :: HasUser(done + [u], n) <==> HasUser(done, n) || n == u.name
    ensures forall p :: HasDevice(done + [u], p) <==> HasDevice(done, p) || p in DevicePaths(u)
    ensures forall p :: HasNode(done + [u], p) <==> HasNode(done, p) || p in NodePaths(u)
  {
    assert forall v :: v in done + [u] <==> v in done || v == u;
    ExtendUsers(done, u);
    ExtendDevices(done, u);
    ExtendNodes(done, u);
  }

  lemma ExtendUsers(done: seq<User>, u: User)
    requires forall v :: v in done + [u] <==> v in done || v == u
    ensures forall n :: HasUser(done + [u], n) <==> HasUser(done, n) || n == u.name
  {
  }

  lemma ExtendDevices(done: seq<User>, u: User)
    requires forall v :: v in done + [u] <==> v in done || v == u
    ensures forall p :: HasDevice(done + [u], p) <==> HasDevice(done, p) || p in DevicePaths(u)
  {
  }

  lemma ExtendNodes(done: seq<User>, u: User)
    requires forall v :: v in done + [u] <==> v in done || v == u
    ensures forall p :: HasNode(done + [u], p) <==> HasNode(done, p) || p in NodePaths(u)
  {
    forall p: (Name, Name, Name)
      ensures p in NodePaths(u) <==> u.name == p.0 && exists n :: n in u.nodes && n.device == p.1 && n.name == p.2
    {
      if n :| n in u.nodes && u.name == p.0 && n.device == p.1 && n.name == p.2 {
        assert PathOf(u.name, n) == p;
      }
    }
  }

  lemma MakeProgress(before: Entities, e: Entities, e': Entities, done: seq<User>, u: User,
                     ku: set<Name>, kd: set<(Name, Name)>, kn: set<(Name, Name, Name)>)
    requires Progress(before, e, done, ku, kd, kn) && u.name !in ku
    requires Grows(e, e') && Present(e', u) && HasLogins(e', u) && SameOthers(e, e', u.name)
    requires NodesKnown(e, u) ==> NodesKept(e, e', u)
    requires Follows(e, e', u, |u.nodes|)
    ensures Progress(before, e', done + [u], ku + {u.name}, kd + DevicePaths(u), kn + NodePaths(u))
  {
    hide Present;
    hide HasLogins;
    hide NodesKnown;
    hide NodesKept;
    hide Follows;
    hide HasUser;
    hide HasDevice;
    hide HasNode;
    hide DevicePaths;
    hide NodePaths;
    ExtendNames(done, u);
    KeptFromTheStart(before, e, e', u);
    forall v | v in done
      ensures v.name != u.name
    {
      UserIsThere(done, v);
    }
    forall v | v in done
      ensures Present(e', v) && HasLogins(e', v) && (NodesKnown(before, v) ==> NodesKept(before, e', v))
      ensures Follows(before, e', v, |v.nodes|)
    {
      OthersKept(before, e, e', u, v);
    }
  }

  lemma UserIsThere(users: seq<User>, u: User)
    requires u in users
    ensures HasUser(users, u.name)
  {
  }

  lemma TrimIsExact(before: Entities, e: Entities, users: seq<User>, ku: set<Name>, kd: set<(Name, Name)>, kn: set<(Name, Name, Name)>)
    requires Sound(e) && LoginOnce(e.nodes) && Progress(before, e, users, ku, kd, kn)
    ensures var e' := Trimmed(e, ku, kd, kn); Sound(e') && LoginOnce(e'.nodes) && Exactly(e', users) && KeepsIds(before, e', users)
    ensures var e' := Trimmed(e, ku, kd, kn); forall u :: u in users ==> Follows(before, e', u, |u.nodes|)
  {
    hide NameTaken;
    hide Matches;
    hide HasUser;
    hide HasDevice;
    hide HasNode;
    hide HasLogins;
    var e' := Trimmed(e, ku, kd, kn);
    forall u | u in users
      ensures Present(e', u) && (NodesKnown(before, u) ==> NodesKept(before, e', u)) && Follows(before, e', u, |u.nodes|)
    {
      PathsAreThere(users, u);
      forall j | 0 <= j < |u.nodes|
        ensures PathOf(u.name, u.nodes[j]) in kn
      {
        assert u.nodes[j] in u.nodes;
      }
    }
  }

  lemma PathsAreThere(users: seq<User>, u: User)
    requires u in users
    ensures HasUser(users, u.name)
    ensures forall d :: d in u.devices ==> HasDevice(users, (u.name, d.name))
    ensures forall n :: n in u.nodes ==> HasNode(users, (u.name, n.device, n.name))
  {
  }

  /** The node has its row already, with its login and secret. */
  predicate KnownNode(e: Entities, user: Name, n: Node) {
    && PathOf(user, n) in e.nodes
    && e.nodes[PathOf(user, n)].auth == n.auth && e.nodes[PathOf(user, n)].uuid == n.uuid
  }

  /** The user's parts have distinct names, its nodes belong to its devices, and they are in the database as they are. */
  predicate KnownUser(e: Entities, u: User) {
    DistinctParts(u) && forall n :: n in u.nodes ==> KnownNode(e, u.name, n) && (u.name, n.device) in DevicePaths(u)
  }

  predicate Known(e: Entities, users: seq<User>) {
    DistinctUsers(users) && forall u :: u in users ==> KnownUser(e, u)
  }

  /** Nothing of the user has been saved yet. */
  predicate NotKept(u: User, ku: set<Name>, kd: set<(Name, Name)>, kn: set<(Name, Name, Name)>) {
    u.name !in ku && DevicePaths(u) !! kd && NodePaths(u) !! kn
  }

  /** No other row has the login or the secret of a known node. */
  lemma KnownIsAlone(e: Entities, user: Name, n: Node)
    requires LoginOnce(e.nodes)
    ensures KnownNode(e, user, n) ==> forall q :: q in e.nodes && q != PathOf(user, n) ==> e.nodes[q].auth != n.auth && e.nodes[q].uuid != n.uuid
    ensures KnownNode(e, user, n) ==> e.(nodes := e.nodes[PathOf(user, n) := NodeRow(e.nodes[PathOf(user, n)].id, n.auth, n.uuid)]) == e
  {
  }

  lemma RenamedKnown(before: Entities, after: Entities, user: Name, n: Node)
    requires Renamed(before, after, user, n)
    ensures KnownNode(before, user, n) ==> after == before
  {
  }

  lemma KnownStill(before: Entities, after: Entities, u: User)
    requires after.nodes == before.nodes
    ensures KnownUser(after, u) <==> KnownUser(before, u)
  {
  }

  lemma DeviceIsNew(u: User, i: nat)
    requires i < |u.devices|
    ensures (u.name, u.devices[i].name) in DevicePaths(u)
    ensures DistinctDevices(u.devices) ==> (u.name, u.devices[i].name) !in DevicePaths(u.(devices := u.devices[..i]))
  {
    assert u.devices[i] in u.devices;
  }

  lemma PathIsNew(e: Entities, u: User, i: nat)
    requires i < |u.nodes|
    ensures PathOf(u.name, u.nodes[i]) in NodePaths(u)
    ensures KnownUser(e, u) ==> KnownNode(e, u.name, u.nodes[i]) && (u.name, u.nodes[i].device) in DevicePaths(u)
    ensures KnownUser(e, u) ==> PathOf(u.name, u.nodes[i]) !in NodePaths(u.(nodes := u.nodes[..i]))
  {
    assert u.nodes[i] in u.nodes;
  }

  /** The keep tables name no part of a user that comes later. */
  lemma NotYetKept(before: Entities, e: Entities, users: seq<User>, i: nat, ku: set<Name>, kd: set<(Name, Name)>, kn: set<(Name, Name, Name)>)
    requires i < |users| && DistinctUsers(users) && Progress(before, e, users[..i], ku, kd, kn)
    ensures NotKept(users[i], ku, kd, kn)
  {
    forall v | v in users[..i]
      ensures v.name != users[i].name
    {
    }
    forall p | p in DevicePaths(users[i])
      ensures p !in kd
    {
      assert !HasDevice(users[..i], p);
    }
    forall p | p in NodePaths(users[i])
      ensures p !in kn
    {
      assert !HasNode(users[..i], p);
    }
    assert !HasUser(users[..i], users[i].name);
  }

  /** The row of a node's login and secret, on its device. */
  predicate Matches(e: Entities, user: Name, n: Node, q: (Name, Name, Name)) {
    q in e.nodes && q.0 == user && q.1 == n.device && e.nodes[q].auth == n.auth && e.nodes[q].uuid == n.uuid
  }

  predicate Renamable(e: Entities, user: Name, n: Node, q: (Name, Name, Name)) {
    Matches(e, user, n, q) && q.2 != n.name
  }

  /** Another row has the node's login or its secret. */
  predicate Taken(e: Entities, user: Name, n: Node) {
    exists q :: q in e.nodes && q != PathOf(user, n) && (e.nodes[q].auth == n.auth || e.nodes[q].uuid == n.uuid)
  }

  /** Another row has the node's login or secret, and it cannot be renamed into the node's. */
  predicate Blocked(e: Entities, user: Name, n: Node) {
    exists q ::
      && q in e.nodes && q != PathOf(user, n) && (e.nodes[q].auth == n.auth || e.nodes[q].uuid == n.uuid)
      && !(Matches(e, user, n, q) && PathOf(user, n) !in e.nodes)
  }

  lemma WhenBlocked(e: Entities, user: Name, n: Node)
    requires LoginOnce(e.nodes)
    ensures (exists q :: Renamable(e, user, n, q)) && PathOf(user, n) in e.nodes ==> Blocked(e, user, n)
    ensures (exists q :: Renamable(e, user, n, q)) && PathOf(user, n) !in e.nodes ==> !Blocked(e, user, n)
    ensures !(exists q :: Renamable(e, user, n, q)) ==> (Blocked(e, user, n) <==> Taken(e, user, n))
  {
    if q :| Renamable(e, user, n, q) {
      assert q in e.nodes && q != PathOf(user, n);
    } else if q :| q in e.nodes && q != PathOf(user, n) && (e.nodes[q].auth == n.auth || e.nodes[q].uuid == n.uuid) {
      assert !Renamable(e, user, n, q);
    }
  }

  /** After a rename nobody else has the login. */
  lemma RenamedTaken(before: Entities, after: Entities, user: Name, n: Node)
    requires LoginOnce(after.nodes) && Renamed(before, after, user, n)
    ensures (exists q :: Renamable(before, user, n, q)) && PathOf(user, n) !in before.nodes ==> !Taken(after, user, n)
    ensures !(exists q :: Renamable(before, user, n, q)) ==> after == before
  {
    if q :| Renamable(before, user, n, q) {
      if PathOf(user, n) !in before.nodes {
        RowAtPath(before, after, user, n, q);
      }
    }
  }

  lemma RowAtPath(before: Entities, after: Entities, user: Name, n: Node, q: (Name, Name, Name))
    requires LoginOnce(after.nodes) && Renamed(before, after, user, n) && Renamable(before, user, n, q)
    ensures !Taken(after, user, n)
  {
    var path := PathOf(user, n);
    assert after.nodes == (before.nodes - {q})[path := before.nodes[q]];
    assert path in after.nodes && after.nodes[path].auth == n.auth && after.nodes[path].uuid == n.uuid;
    forall r | r in after.nodes && (after.nodes[r].auth == n.auth || after.nodes[r].uuid == n.uuid)
      ensures r == path
    {
    }
  }

  /** The node's row has moved to its name; nothing else has changed. */
  ghost predicate Renamed(before: Entities, after: Entities, user: Name, n: Node) {
    && after.users == before.users && after.devices == before.devices && SameOthers(before, after, user)
    && (forall q :: Renamable(before, user, n, q) ==>
      PathOf(user, n) !in before.nodes && after.nodes == (before.nodes - {q})[PathOf(user, n) := before.nodes[q]])
    && (!(exists q :: Renamable(before, user, n, q)) ==> after == before)
  }

  lemma RenameIsSound(e: Entities, user: Name, n: Node, q: (Name, Name, Name))
    requires Sound(e) && LoginOnce(e.nodes) && Renamable(e, user, n, q) && PathOf(user, n) !in e.nodes
    ensures var e' := e.(nodes := (e.nodes - {q})[PathOf(user, n) := e.nodes[q]]);
            Sound(e') && LoginOnce(e'.nodes) && Renamed(e, e', user, n)
  {
  }

  lemma NothingToRename(e: Entities, user: Name, n: Node)
    requires !(exists q :: Renamable(e, user, n, q))
    ensures Renamed(e, e, user, n)
  {
  }

  ghost predicate Upserted(before: Entities, after: Entities, user: Name, n: Node) {
    && after.users == before.users && after.devices == before.devices
    && (PathOf(user, n) in after.nodes && after.nodes[PathOf(user, n)].auth == n.auth)
    && (forall q :: q in after.nodes <==> q in before.nodes || q == PathOf(user, n))
    && (forall q :: q in before.nodes && q != PathOf(user, n) ==> after.nodes[q] == before.nodes[q])
    && (PathOf(user, n) in before.nodes ==> after.nodes[PathOf(user, n)].id == before.nodes[PathOf(user, n)].id)
  }

  /** What one node of a save does: a node that is known by name keeps all row ids as they are. */
  ghost predicate NodeStep(before: Entities, after: Entities, user: Name, n: Node) {
    && after.users == before.users && after.devices == before.devices && SameOthers(before, after, user)
    && (PathOf(user, n) in after.nodes && after.nodes[PathOf(user, n)].auth == n.auth)
    && (forall q :: q in before.nodes && q != PathOf(user, n) && before.nodes[q].auth != n.auth ==>
      q in after.nodes && after.nodes[q] == before.nodes[q])
    && (PathOf(user, n) in before.nodes ==> SameIds(before, after))
    && (forall q :: Matches(before, user, n, q) ==> after.nodes[PathOf(user, n)].id == before.nodes[q].id)
  }

  lemma UpsertIsSound(e: Entities, user: Name, n: Node, id: Id)
    requires Sound(e) && LoginOnce(e.nodes)
    requires forall q :: q in e.nodes && q != PathOf(user, n) ==> e.nodes[q].auth != n.auth && e.nodes[q].uuid != n.uuid
    requires if PathOf(user, n) in e.nodes then e.nodes[PathOf(user, n)].id == id else forall q :: q in e.nodes ==> e.nodes[q].id != id
    ensures var e' := e.(nodes := e.nodes[PathOf(user, n) := NodeRow(id, n.auth, n.uuid)]);
            Sound(e') && LoginOnce(e'.nodes) && Upserted(e, e', user, n)
  {
  }

  lemma RenameThenUpsert(a: Entities, b: Entities, c: Entities, user: Name, n: Node)
    requires Renamed(a, b, user, n) && Upserted(b, c, user, n)
    ensures NodeStep(a, c, user, n)
  {
  }

  /** The nodes of a user saved so far keep their rows through the next node. */
  lemma NodeStepKeeps(start: Entities, before: Entities, after: Entities, u: User, i: nat)
    requires i < |u.nodes| && NodeStep(before, after, u.name, u.nodes[i]) && SameOthers(start, before, u.name)
    requires forall j :: 0 <= j < i ==> HasLogin(before, u.name, u.nodes[j]) && u.nodes[j].auth != u.nodes[i].auth
    requires NodesKnown(start, u) ==> SameIds(start, before)
    requires PathOf(u.name, u.nodes[i]) !in NodePaths(u.(nodes := u.nodes[..i]))
    ensures after.users == before.users && after.devices == before.devices
    ensures SameOthers(start, after, u.name)
    ensures forall j :: 0 <= j <= i ==> HasLogin(after, u.name, u.nodes[j])
    ensures NodesKnown(start, u) ==> SameIds(start, after)
  {
    forall j | 0 <= j < i
      ensures PathOf(u.name, u.nodes[j]) != PathOf(u.name, u.nodes[i])
    {
      assert u.nodes[..i][j] in u.nodes[..i];
    }
  }

  // Following a node's row through the names it is given.

  /** An earlier node of the user has this name now. */
  predicate NameTaken(u: User, k: nat, q: (Name, Name, Name))
    requires k <= |u.nodes|
  {
    exists j :: 0 <= j < k && PathOf(u.name, u.nodes[j]) == q
  }

  predicate Met(u: User, k: nat, auth: string)
    requires k <= |u.nodes|
  {
    exists j :: 0 <= j < k && u.nodes[j].auth == auth
  }

  /**
   The row that had a node's login ends up under the node's name, whatever name it had, unless a
   node saved before it has taken that name; then that node has the row.
   */
  ghost predicate Follows(before: Entities, after: Entities, u: User, k: nat)
    requires k <= |u.nodes|
  {
    forall j, q :: 0 <= j < k && Matches(before, u.name, u.nodes[j], q) ==>
      var path := PathOf(u.name, u.nodes[j]);
      path in after.nodes && (after.nodes[path].id == before.nodes[q].id <==> !NameTaken(u, j, q))
  }

  /** Rows the nodes so far have nothing to do with are as they were. */
  ghost predicate Unmoved(before: Entities, after: Entities, u: User, k: nat)
    requires k <= |u.nodes|
  {
    forall q: (Name, Name, Name) :: q in before.nodes && q.0 == u.name && !NameTaken(u, k, q) && !Met(u, k, before.nodes[q].auth) ==>
      q in after.nodes && after.nodes[q] == before.nodes[q]
  }

  /** A node that takes the name of a row that has not moved takes the row. */
  ghost predicate TakesRows(before: Entities, after: Entities, u: User, k: nat)
    requires k <= |u.nodes|
  {
    forall j :: 0 <= j < k ==>
      var path := PathOf(u.name, u.nodes[j]);
      path in before.nodes && !Met(u, j, before.nodes[path].auth) ==> path in after.nodes && after.nodes[path].id == before.nodes[path].id
  }

  ghost predicate Traces(before: Entities, after: Entities, u: User, k: nat)
    requires k <= |u.nodes|
  {
    Follows(before, after, u, k) && Unmoved(before, after, u, k) && TakesRows(before, after, u, k)
  }

  lemma TracesNothing(e: Entities, u: User)
    ensures Traces(e, e, u, 0)
  {
  }

  lemma TracesFollow(before: Entities, after: Entities, u: User, k: nat)
    requires k <= |u.nodes| && Traces(before, after, u, k)
    ensures Follows(before, after, u, k)
  {
  }

  /** The facts one more node is traced with. */
  ghost predicate Stepped(start: Entities, before: Entities, after: Entities, u: User, i: nat)
    requires i < |u.nodes|
  {
    && NodeStep(before, after, u.name, u.nodes[i]) && Traces(start, before, u, i)
    && (forall j :: 0 <= j < i ==> HasLogin(before, u.name, u.nodes[j]) && u.nodes[j].auth != u.nodes[i].auth)
    && !NameTaken(u, i, PathOf(u.name, u.nodes[i]))
  }

  /** Rows of earlier nodes stay where they are. */
  lemma EarlierRowsStay(start: Entities, before: Entities, after: Entities, u: User, i: nat, j: nat)
    requires i < |u.nodes| && Stepped(start, before, after, u, i) && j < i
    ensures var path := PathOf(u.name, u.nodes[j]); path in before.nodes && path in after.nodes && after.nodes[path] == before.nodes[path]
  {
    assert HasLogin(before, u.name, u.nodes[j]);
  }

  lemma StepUnmoved(start: Entities, before: Entities, after: Entities, u: User, i: nat)
    requires i < |u.nodes| && Stepped(start, before, after, u, i)
    ensures Unmoved(start, after, u, i + 1)
  {
    forall q: (Name, Name, Name) | q in start.nodes && q.0 == u.name && !NameTaken(u, i + 1, q) && !Met(u, i + 1, start.nodes[q].auth)
      ensures q in after.nodes && after.nodes[q] == start.nodes[q]
    {
      LessTaken(u, i, q, start.nodes[q].auth);
      assert before.nodes[q] == start.nodes[q];
    }
  }

  lemma LessTaken(u: User, i: nat, q: (Name, Name, Name), auth: string)
    requires i < |u.nodes|
    ensures !NameTaken(u, i + 1, q) <==> !NameTaken(u, i, q) && q != PathOf(u.name, u.nodes[i])
    ensures !Met(u, i + 1, auth) <==> !Met(u, i, auth) && auth != u.nodes[i].auth
  {
  }

  lemma StepTakesRows(start: Entities, before: Entities, after: Entities, u: User, i: nat)
    requires i < |u.nodes| && Stepped(start, before, after, u, i)
    ensures TakesRows(start, after, u, i + 1)
  {
    forall j | 0 <= j <= i && PathOf(u.name, u.nodes[j]) in start.nodes && !Met(u, j, start.nodes[PathOf(u.name, u.nodes[j])].auth)
      ensures var path := PathOf(u.name, u.nodes[j]); path in after.nodes && after.nodes[path].id == start.nodes[path].id
    {
      if j < i {
        EarlierRowsStay(start, before, after, u, i, j);
      } else {
        assert before.nodes[PathOf(u.name, u.nodes[i])] == start.nodes[PathOf(u.name, u.nodes[i])];
      }
    }
  }

  lemma NotMet(u: User, i: nat)
    requires i < |u.nodes| && forall j :: 0 <= j < i ==> u.nodes[j].auth != u.nodes[i].auth
    ensures forall k :: 0 <= k <= i ==> !Met(u, k, u.nodes[i].auth)
  {
  }

  lemma StepFollows(start: Entities, before: Entities, after: Entities, u: User, i: nat)
    requires i < |u.nodes| && Stepped(start, before, after, u, i) && Sound(after) && TakesRows(start, after, u, i + 1)
    ensures Follows(start, after, u, i + 1)
  {
    NotMet(u, i);
    hide Met;
    forall j, q | 0 <= j <= i && Matches(start, u.name, u.nodes[j], q)
      ensures var path := PathOf(u.name, u.nodes[j]);
              path in after.nodes && (after.nodes[path].id == start.nodes[q].id <==> !NameTaken(u, j, q))
    {
      if j < i {
        EarlierRowsStay(start, before, after, u, i, j);
      } else if NameTaken(u, i, q) {
        var k :| 0 <= k < i && PathOf(u.name, u.nodes[k]) == q;
        assert after.nodes[q].id == start.nodes[q].id;
      } else {
        assert before.nodes[q] == start.nodes[q];
        assert Matches(before, u.name, u.nodes[i], q);
      }
    }
  }

  lemma NodeStepTraces(start: Entities, before: Entities, after: Entities, u: User, i: nat)
    requires i < |u.nodes| && NodeStep(before, after, u.name, u.nodes[i]) && Traces(start, before, u, i) && Sound(after)
    requires forall j :: 0 <= j < i ==> HasLogin(before, u.name, u.nodes[j]) && u.nodes[j].auth != u.nodes[i].auth
    requires PathOf(u.name, u.nodes[i]) !in NodePaths(u.(nodes := u.nodes[..i]))
    ensures Traces(start, after, u, i + 1)
  {
    forall j | 0 <= j < i
      ensures PathOf(u.name, u.nodes[j]) != PathOf(u.name, u.nodes[i])
    {
      assert u.nodes[..i][j] in u.nodes[..i];
    }
    hide NodeStep;
    StepUnmoved(start, before, after, u, i);
    StepTakesRows(start, before, after, u, i);
    StepFollows(start, before, after, u, i);
  }

  predicate HasLogin(e: Entities, user: Name, n: Node) {
    PathOf(user, n) in e.nodes && e.nodes[PathOf(user, n)].auth == n.auth
  }

  /** Every node of the user has its row, with its login. */
  predicate HasLogins(e: Entities, u: User) {
    forall n :: n in u.nodes ==> PathOf(u.name, n) in e.nodes && e.nodes[PathOf(u.name, n)].auth == n.auth
  }

  lemma NodesOnly(a: Entities, b: Entities, u: User)
    requires a.nodes == b.nodes
    ensures NodesKnown(a, u) <==> NodesKnown(b, u)
  {
  }

  lemma NodesOnlyKept(a: Entities, b: Entities, c: Entities, u: User)
    requires a.nodes == b.nodes
    ensures NodesKept(b, c, u) ==> NodesKept(a, c, u)
    ensures Follows(b, c, u, |u.nodes|) ==> Follows(a, c, u, |u.nodes|)
  {
    assert forall n, q :: Matches(a, u.name, n, q) ==> Matches(b, u.name, n, q);
    hide Matches;
  }

  predicate DistinctDevices(devices: seq<Device>) {
    forall i, j :: 0 <= i < j < |devices| ==> devices[i].name != devices[j].name
  }

  lemma OneMoreDevice(u: User, i: nat)
    requires i < |u.devices| && DistinctDevices(u.devices[..i])
    requires (u.name, u.devices[i].name) !in DevicePaths(u.(devices := u.devices[..i]))
    ensures DevicePaths(u.(devices := u.devices[..i + 1])) == DevicePaths(u.(devices := u.devices[..i])) + {(u.name, u.devices[i].name)}
    ensures DistinctDevices(u.devices[..i + 1])
  {
    assert u.devices[..i + 1] == u.devices[..i] + [u.devices[i]];
    forall j | 0 <= j < i
      ensures u.devices[j].name != u.devices[i].name
    {
      assert u.devices[..i][j] in u.devices[..i];
    }
  }

  lemma StillGrows(a: Entities, b: Entities, c: Entities)
    requires Grows(a, b) && b.users == c.users && forall q :: q in b.devices ==> q in c.devices && c.devices[q] == b.devices[q]
    ensures Grows(a, c)
  {
  }

  lemma OneMorePath(u: User, i: nat)
    requires i < |u.nodes|
    ensures NodePaths(u.(nodes := u.nodes[..i + 1])) == NodePaths(u.(nodes := u.nodes[..i])) + {PathOf(u.name, u.nodes[i])}
  {
  }

  lemma NodesAreKept(before: Entities, after: Entities, u: User)
    requires forall j :: 0 <= j < |u.nodes| ==> HasLogin(after, u.name, u.nodes[j])
    requires NodesKnown(before, u) ==> SameIds(before, after)
    ensures HasLogins(after, u)
    ensures NodesKnown(before, u) ==> NodesKept(before, after, u)
    ensures NodePaths(u) == NodePaths(u.(nodes := u.nodes[..|u.nodes|]))
  {
    assert u.nodes[..|u.nodes|] == u.nodes;
  }

  lemma EarlierLogins(u: User, i: nat)
    requires Validated([u]) && i < |u.nodes|
    ensures forall j :: 0 <= j < i ==> u.nodes[j].auth != u.nodes[i].auth
  {
    forall j | 0 <= j < i
      ensures u.nodes[j].auth != u.nodes[i].auth
    {
      assert At([u], 0, j) && At([u], 0, i);
    }
  }

  /** Nodes with different logins that all have their rows have different names. */
  lemma LoginsTellPaths(e: Entities, u: User)
    requires Validated([u]) && HasLogins(e, u)
    ensures forall i, j :: 0 <= i < j < |u.nodes| ==> PathOf(u.name, u.nodes[i]) != PathOf(u.name, u.nodes[j])
  {
    hide Validated;
    forall i, j | 0 <= i < j < |u.nodes|
      ensures PathOf(u.name, u.nodes[i]) != PathOf(u.name, u.nodes[j])
    {
      EarlierLogins(u, j);
    }
  }

  function DevicePaths(u: User): set<(Name, Name)> {
    set d | d in u.devices :: (u.name, d.name)
  }

  function NodePaths(u: User): set<(Name, Name, Name)> {
    set n | n in u.nodes :: PathOf(u.name, n)
  }

  /** Users and devices only gain rows. */
  ghost predicate Grows(before: Entities, after: Entities) {
    && (forall n :: n in before.users ==> n in after.users && after.users[n] == before.users[n])
    && (forall p :: p in before.devices ==> p in after.devices && after.devices[p] == before.devices[p])
  }

  /** No other user's nodes are touched. */
  ghost predicate SameOthers(before: Entities, after: Entities, user: Name) {
    forall p: (Name, Name, Name) :: p.0 != user ==> (p in after.nodes <==> p in before.nodes) && (p in after.nodes ==> after.nodes[p] == before.nodes[p])
  }

  ghost predicate SameIds(before: Entities, after: Entities) {
    && after.nodes.Keys == before.nodes.Keys
    && forall p :: p in after.nodes ==> after.nodes[p].id == before.nodes[p].id
  }
}
