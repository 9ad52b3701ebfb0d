/**
 Group policies: what a group sets for its members, what counts as a personal exception, and the
 assignment of a group's routes to a member's devices.

 Rates are opaque numbers, quota modes are normalised, and route aliases resolve through one fixed
 function that leaves its own results alone.
 */
module Groups {
  import opened Wrappers
  import opened Names

  datatype Scope = QuotaScope | RateScope | ExpiryScope | RouteScope | DeviceScope

  const ALL_SCOPES := {QuotaScope, RateScope, ExpiryScope, RouteScope, DeviceScope}

  datatype Mode = Total | Upload | Download

  datatype Quota = Quota(bytes: int, mode: Mode)

  datatype Rate = Rate(up: int, down: int)

  datatype Route = Route(outbound: string, name: string)

  datatype Policy = Policy(devices: Option<int>, quota: Option<Quota>, rate: Option<Rate>, expiry: Option<string>, routes: Option<seq<Route>>)

  datatype Group = Group(id: string, name: string, policy: Policy)

  datatype Node = Node(name: string, device: string, outbound: string, auth: string, uuid: nat, up: int, down: int)

  datatype User = User(
    name: string, group: string, overrides: set<Scope>, limit: int, bytes: int, mode: Mode, expires: string,
    up: int, down: int, mark: nat, devices: seq<string>, nodes: seq<Node>)

  const MESH_PREFIX := "sbmgr-mesh-"

  /**
   What stays the same during an edit: how aliases resolve, which routes can be selected, reserved
   logins, whether mesh routes are ready, whether routes are compared (not during a rollout), and which
   texts are names and dates.
   */
  datatype Site = Site(
    canon: string -> string, available: set<string>, reserved: set<string>, meshReady: bool, settled: bool,
    validName: string -> bool, validDate: string -> bool)

  ghost predicate Proper(site: Site) {
    forall x: string :: site.canon(site.canon(x)) == site.canon(x)
  }

  function Keys(site: Site, routes: seq<Route>): set<string> {
    set r | r in routes :: site.canon(r.outbound)
  }

  function Outbounds(site: Site, nodes: seq<Node>, device: string): set<string> {
    set n | n in nodes && n.device == device :: site.canon(n.outbound)
  }

  function FindGroup(groups: seq<Group>, id: string): Option<Group> {
    if groups == [] then None
    else if groups[0].id == id then Some(groups[0])
    else FindGroup(groups[1..], id)
  }

  // ------------------------------------------------------------------------------------------
  // Personal exceptions
  // ------------------------------------------------------------------------------------------

  /** The member differs from what the group sets in this scope. */
  predicate Diverges(site: Site, u: User, p: Policy, scope: Scope) {
    match scope
    case DeviceScope => p.devices.Some? && u.limit != p.devices.value
    case QuotaScope => p.quota.Some? && (u.bytes != p.quota.value.bytes || u.mode != p.quota.value.mode)
    case ExpiryScope => p.expiry.Some? && u.expires != p.expiry.value
    case RateScope =>
      p.rate.Some? && (u.up != 0 || u.down != 0 || exists n :: n in u.nodes && (n.up != p.rate.value.up || n.down != p.rate.value.down))
    case RouteScope =>
      p.routes.Some? && site.settled && exists d :: d in u.devices && Outbounds(site, u.nodes, d) != Keys(site, p.routes.value)
  }

  /** To agree with the group in a scope is to have what the group sets, on every node and every device. */
  lemma AgreesWith(site: Site, u: User, p: Policy)
    ensures !Diverges(site, u, p, DeviceScope) <==> p.devices.None? || p.devices.value == u.limit
    ensures !Diverges(site, u, p, QuotaScope) <==> p.quota.None? || p.quota.value == Quota(u.bytes, u.mode)
    ensures !Diverges(site, u, p, ExpiryScope) <==> p.expiry.None? || p.expiry.value == u.expires
    ensures !Diverges(site, u, p, RateScope) <==>
            p.rate.None? || (u.up == 0 && u.down == 0 && forall n :: n in u.nodes ==> Rate(n.up, n.down) == p.rate.value)
    ensures site.settled ==>
              (!Diverges(site, u, p, RouteScope) <==>
                p.routes.None? || forall d, x :: d in u.devices ==> (Reaches(site, u.nodes, d, x) <==> Among(site, p.routes.value, x)))
    ensures !site.settled ==> !Diverges(site, u, p, RouteScope)
  {
    if p.routes.Some? {
      forall d | d in u.devices
        ensures Outbounds(site, u.nodes, d) == Keys(site, p.routes.value) <==>
                forall x :: Reaches(site, u.nodes, d, x) <==> Among(site, p.routes.value, x)
      {
        SameRoutes(site, u.nodes, d, p.routes.value);
      }
    }
    hide Outbounds;
    hide Keys;
    hide Reaches;
    hide Among;
  }

  /** A node of the device leads to the route. */
  predicate Reaches(site: Site, nodes: seq<Node>, device: string, key: string) {
    exists n :: n in nodes && n.device == device && site.canon(n.outbound) == key
  }

  lemma SameRoutes(site: Site, nodes: seq<Node>, device: string, routes: seq<Route>)
    ensures Outbounds(site, nodes, device) == Keys(site, routes) <==> forall x :: Reaches(site, nodes, device, x) <==> Among(site, routes, x)
  {
    assert forall x :: x in Outbounds(site, nodes, device) <==> Reaches(site, nodes, device, x);
    assert forall x :: x in Keys(site, routes) <==> Among(site, routes, x);
    hide Outbounds;
    hide Keys;
    hide Reaches;
    hide Among;
    if forall x :: Reaches(site, nodes, device, x) <==> Among(site, routes, x) {
      forall x
        ensures x in Outbounds(site, nodes, device) <==> x in Keys(site, routes)
      {
        assert Reaches(site, nodes, device, x) <==> Among(site, routes, x);
      }
    }
  }

  /** What every save does: a member's differences become exceptions. */
  function Captured(site: Site, groups: seq<Group>, u: User): User {
    match FindGroup(groups, u.group)
    case None => u
    case Some(g) => u.(overrides := u.overrides + set scope | scope in ALL_SCOPES && Diverges(site, u, g.policy, scope))
  }

  /** The member has no difference that is not an exception already. */
  predicate Settled(site: Site, groups: seq<Group>, u: User) {
    var g := FindGroup(groups, u.group);
    g.Some? ==> forall scope: Scope :: Diverges(site, u, g.value.policy, scope) ==> scope in u.overrides
  }

  /** Saving adds no exception exactly for members that are settled. */
  lemma CaptureAddsNothing(site: Site, groups: seq<Group>, u: User)
    ensures Captured(site, groups, u) == u <==> Settled(site, groups, u)
    ensures Settled(site, groups, Captured(site, groups, u))
  {
    hide Diverges;
    EveryScope();
    var g := FindGroup(groups, u.group);
    if g.Some? {
      var news := set scope | scope in ALL_SCOPES && Diverges(site, u, g.value.policy, scope);
      assert Captured(site, groups, u).overrides == u.overrides + news;
      if Settled(site, groups, u) {
        assert u.overrides + news == u.overrides;
      }
      if Captured(site, groups, u) == u {
        assert forall scope: Scope :: Diverges(site, u, g.value.policy, scope) ==> scope in news;
      }
      OverridesDoNotMatter(site, u, u.overrides + news, g.value.policy);
    }
  }

  /** What a save makes an exception is what differs, and it changes nothing else. */
  lemma CapturesDifferences(site: Site, groups: seq<Group>, u: User, scope: Scope)
    ensures var g := FindGroup(groups, u.group);
            && Captured(site, groups, u) == u.(overrides := Captured(site, groups, u).overrides)
            && (scope in Captured(site, groups, u).overrides <==> scope in u.overrides || (g.Some? && Diverges(site, u, g.value.policy, scope)))
  {
    hide Diverges;
    EveryScope();
  }

  lemma EveryScope()
    ensures forall scope: Scope :: scope in ALL_SCOPES
  {
    forall scope: Scope
      ensures scope in ALL_SCOPES
    {
      match scope
      case QuotaScope =>
      case RateScope =>
      case ExpiryScope =>
      case RouteScope =>
      case DeviceScope =>
    }
  }

  lemma OverridesDoNotMatter(site: Site, u: User, overrides: set<Scope>, p: Policy)
    ensures forall scope: Scope :: Diverges(site, u.(overrides := overrides), p, scope) <==> Diverges(site, u, p, scope)
  {
  }

  // ------------------------------------------------------------------------------------------
  // Assigning routes
  // ------------------------------------------------------------------------------------------

  /** The nodes that stay: those of other devices, and those whose route is still chosen. */
  function Kept(site: Site, nodes: seq<Node>, device: string, keys: set<string>): seq<Node> {
    if nodes == [] then []
    else
      var front, n := Kept(site, nodes[..|nodes| - 1], device, keys), nodes[|nodes| - 1];
      if n.device != device || site.canon(n.outbound) in keys then front + [n] else front
  }

  function Logins(users: seq<User>): set<string> {
    set u, n | u in users && n in u.nodes :: n.auth
  }

  /** Nodes created together: on the device, on chosen routes not kept, under names and logins nobody has. */
  predicate Added(site: Site, kept: seq<Node>, added: seq<Node>, device: string, keys: set<string>, logins: set<string>, uuids: set<nat>) {
    && (forall n :: n in added ==>
      && n.device == device && n.outbound in keys && n.outbound !in Outbounds(site, kept, device)
      && n.auth !in logins && n.uuid !in uuids
      && (forall m :: m in kept && m.device == device ==> Lower(m.name) != Lower(n.name)))
    && (forall i, j :: 0 <= i < j < |added| ==>
      && added[i].outbound != added[j].outbound && added[i].auth != added[j].auth && added[i].uuid != added[j].uuid
      && Lower(added[i].name) != Lower(added[j].name))
  }

  /** The nodes after an assignment: the kept ones as they were, in order, then the added ones. */
  ghost predicate Assigned(site: Site, before: seq<Node>, after: seq<Node>, device: string, keys: set<string>, logins: set<string>, uuids: set<nat>) {
    var kept := Kept(site, before, device, keys);
    && |kept| <= |after| && after[..|kept|] == kept
    && Added(site, kept, after[|kept|..], device, keys, logins, uuids)
    && Outbounds(site, after, device) == keys
  }

  lemma {:induction false} KeptIsPart(site: Site, nodes: seq<Node>, device: string, keys: set<string>, n: Node)
    ensures n in Kept(site, nodes, device, keys) <==> n in nodes && (n.device != device || site.canon(n.outbound) in keys)
  {
    if nodes != [] {
      KeptIsPart(site, nodes[..|nodes| - 1], device, keys, n);
      assert n in nodes <==> n in nodes[..|nodes| - 1] || n == nodes[|nodes| - 1];
    }
  }

  /** Assigning routes to one device leaves the routes of every other device alone. */
  lemma OtherDevices(site: Site, before: seq<Node>, after: seq<Node>, device: string, keys: set<string>, logins: set<string>, uuids: set<nat>, other: string)
    requires Assigned(site, before, after, device, keys, logins, uuids) && other != device
    ensures Outbounds(site, after, other) == Outbounds(site, before, other)
  {
    var kept := Kept(site, before, device, keys);
    forall n: Node | n.device == other
      ensures n in after <==> n in before
    {
      KeptIsPart(site, before, device, keys, n);
      assert after == kept + after[|kept|..];
    }
  }

  /** The least positive rate a device's nodes have, or zero. */
  function LeastRate(nodes: seq<Node>, device: string, upload: bool): int {
    if nodes == [] then 0
    else
      var front, n := LeastRate(nodes[..|nodes| - 1], device, upload), nodes[|nodes| - 1];
      var rate := if upload then n.up else n.down;
      if n.device == device && rate > 0 && (front == 0 || rate < front) then rate else front
  }

  /** It is the rate of a node of the device and no node of it has a lower one, but for those without a rate. */
  lemma {:induction false} LeastIsLeast(nodes: seq<Node>, device: string, upload: bool)
    ensures var least := LeastRate(nodes, device, upload);
            && least >= 0
            && (forall n :: n in nodes && n.device == device ==> var rate := if upload then n.up else n.down; rate <= 0 || 0 < least <= rate)
            && (least > 0 ==> exists n :: n in nodes && n.device == device && (if upload then n.up else n.down) == least)
  {
    if nodes != [] {
      LeastIsLeast(nodes[..|nodes| - 1], device, upload);
      assert forall n :: n in nodes <==> n in nodes[..|nodes| - 1] || n == nodes[|nodes| - 1];
    }
  }

  /**
   A node added for one of the routes: named after the route, with a login made of member, device and
   name, and with the lowest rates of the device if the member's rates are an exception.
   */
  ghost predicate MadeFor(site: Site, u: User, device: string, routes: seq<Route>, n: Node) {
    && (exists r, k: nat :: r in routes && site.canon(r.outbound) == n.outbound && n.name == Numbered(r.name, " (", k, ")"))
    && (exists k: nat :: n.auth == Numbered(u.name + ":" + Slug(device) + ":" + Slug(n.name), "-", k, ""))
    && n.up == (if RateScope in u.overrides then LeastRate(u.nodes, device, true) else 0)
    && n.down == (if RateScope in u.overrides then LeastRate(u.nodes, device, false) else 0)
  }

  /** The nodes added before do not change what the lowest rate is. */
  lemma {:induction false} SameLeastRate(site: Site, u: User, device: string, routes: seq<Route>, added: seq<Node>)
    requires RateScope in u.overrides && forall n :: n in added ==> MadeFor(site, u, device, routes, n)
    ensures LeastRate(u.nodes + added, device, true) == LeastRate(u.nodes, device, true)
    ensures LeastRate(u.nodes + added, device, false) == LeastRate(u.nodes, device, false)
  {
    if added == [] {
      assert u.nodes + added == u.nodes;
    } else {
      var last := |added| - 1;
      SameLeastRate(site, u, device, routes, added[..last]);
      assert (u.nodes + added)[..|u.nodes + added| - 1] == u.nodes + added[..last];
      assert MadeFor(site, u, device, routes, added[last]);
    }
  }

  lemma LowerNumbered(base: string, k: nat)
    ensures Lower(Numbered(base, " (", k, ")")) == Numbered(Lower(base), " (", k, ")")
  {
    if k >= 2 {
      forall c | c in Decimal(k)
        ensures LowerChar(c) == c
      {
      }
    }
  }

  /** The member's group exists, and if it gives a device routes they can be selected. */
  predicate Applicable(site: Site, groups: seq<Group>, u: User, scopes: set<Scope>) {
    var g := FindGroup(groups, u.group);
    && g.Some?
    && (RouteScope in scopes - u.overrides && g.value.policy.routes.Some? && u.devices != [] ==> Selectable(site, g.value.policy.routes.value))
  }

  lemma ApplicableExactly(site: Site, groups: seq<Group>, u: User, scopes: set<Scope>)
    ensures Applicable(site, groups, u, scopes) <==>
            match FindGroup(groups, u.group)
            case None => false
            case Some(g) => !(RouteScope in scopes) || RouteScope in u.overrides || g.policy.routes == None || u.devices == [] || Selectable(site, g.policy.routes.value)
  {
    hide Selectable;
  }

  class Admin {
    const site: Site
    var groups: seq<Group>
    var users: seq<User>
    var uuids: set<nat>

    ghost predicate Valid()
      reads this
    {
      Proper(site) && forall u, n :: u in users && n in u.nodes ==> n.uuid in uuids
    }

    constructor (site: Site, groups: seq<Group>, users: seq<User>, uuids: set<nat>)
      requires Proper(site) && forall u, n :: u in users && n in u.nodes ==> n.uuid in uuids
      ensures Valid() && this.site == site && this.groups == groups && this.users == users
    {
      this.site, this.groups, this.users, this.uuids := site, groups, users, uuids;
    }

    /** The routes a selection stands for: all of them known, none twice, mesh routes only when they are applied. */
    method Select(routes: seq<Route>) returns (r: Option<set<string>>)
      ensures r.Some? <==> Selectable(site, routes)
      ensures r.Some? ==> r.value == Keys(site, routes)
    {
      var chosen: set<string> := {};
      for i := 0 to |routes|
        invariant chosen == Keys(site, routes[..i]) && Selectable(site, routes[..i])
      {
        var key := site.canon(routes[i].outbound);
        SelectNext(site, routes, i);
        if key in chosen {
          return None;
        }
        chosen := chosen + {key};
        if key !in site.available {
          return None;
        }
        if MESH_PREFIX <= key && !site.meshReady {
          return None;
        }
      }
      assert routes[..|routes|] == routes;
      return Some(chosen);
    }

    /**
     Gives a device exactly the chosen routes. What it has of them keeps its identity; the rest gets
     fresh nodes under names and logins nobody has.
     */
    method AssignRoutes(k: nat, device: string, routes: seq<Route>) returns (ok: bool)
      requires Valid() && k < |users|
      modifies this`users, this`uuids
      ensures Valid() && old(uuids) <= uuids
      ensures ok <==> Selectable(site, routes)
      ensures !ok ==> users == old(users)
      ensures ok ==> OnlyNodes(old(users), users, k)
      ensures ok ==> Assigned(site, old(users)[k].nodes, users[k].nodes, device, Keys(site, routes), site.reserved + Logins(old(users)), old(uuids))
      ensures ok ==> forall n :: n in users[k].nodes ==> n in old(users)[k].nodes || MadeFor(site, old(users)[k], device, routes, n)
    {
      hide MadeFor;
      hide Outbounds;
      hide LeastRate;
      hide Slug;
      hide Added;
      hide Names.Lower;
      var keys := Select(routes);
      if keys.None? {
        return false;
      }
      var u := users[k];
      var kept, existing, names := KeepNodes(u.nodes, device, keys.value);
      var taken := site.reserved + Logins(users);
      ghost var taken0, uuids0 := taken, uuids;
      var added: seq<Node> := [];
      NothingAdded(site, kept, device, keys.value, taken, uuids);
      for i := 0 to |routes|
        invariant uuids0 <= uuids && users == old(users)
        invariant Added(site, kept, added, device, keys.value, taken0, uuids0)
        invariant Tracks(kept, added, device, names, taken0, taken, uuids0, uuids)
        invariant Covers(site, routes[..i], existing, added)
        invariant forall n :: n in added ==> MadeFor(site, u, device, routes, n)
      {
        hide Tracks;
        hide Covers;
        hide Keys;
        var r := routes[i];
        var key := site.canon(r.outbound);
        if key in existing {
          CoversKnown(site, routes, i, existing, added);
          continue;
        }
        var lower, n := FirstUnused(Lower(r.name), " (", ")", names);
        var name := Numbered(r.name, " (", n, ")");
        LowerNumbered(r.name, n);
        var auth, a := FirstUnused(u.name + ":" + Slug(device) + ":" + Slug(name), "-", "", taken);
        UnusedUuid(uuids);
        var uuid: nat :| uuid !in uuids;
        var up, down := 0, 0;
        if RateScope in u.overrides {
          SameLeastRate(site, u, device, routes, added);
          up, down := LeastRate(u.nodes + added, device, true), LeastRate(u.nodes + added, device, false);
        }
        var x := Node(name, device, key, auth, uuid, up, down);
        KeyIsChosen(site, routes, i);
        IsMadeFor(site, u, device, routes, i, x, n, a);
        NewOutbound(site, routes, i, existing, added);
        AddedNext(site, kept, added, x, device, keys.value, names, taken0, taken, uuids0, uuids);
        CoversNew(site, routes, i, existing, added, x);
        names := names + {lower};
        taken := taken + {auth};
        uuids := uuids + {uuid};
        added := added + [x];
      }
      assert routes[..|routes|] == routes;
      AllCovered(site, u.nodes, kept, added, device, routes, keys.value, taken0, uuids0);
      NodesKeptOrAdded(site, u.nodes, kept, added, device, keys.value);
      NodesHaveUuids(users, k, kept, added, taken0, taken, device, names, uuids0, uuids, site, keys.value);
      users := users[k := u.(nodes := kept + added)];
      ok := true;
    }

    /** The nodes that stay, the routes the device has among them, and the names it uses there. */
    method KeepNodes(nodes: seq<Node>, device: string, keys: set<string>)
      returns (kept: seq<Node>, existing: set<string>, names: set<string>)
      ensures kept == Kept(site, nodes, device, keys) && existing == Outbounds(site, kept, device) && names == NamesOf(kept, device)
    {
      hide Names.Lower;
      kept, existing, names := [], {}, {};
      for i := 0 to |nodes|
        invariant kept == Kept(site, nodes[..i], device, keys)
        invariant existing == Outbounds(site, kept, device) && names == NamesOf(kept, device)
      {
        var n := nodes[i];
        assert nodes[..i + 1][..i] == nodes[..i];
        if n.device != device || site.canon(n.outbound) in keys {
          OneMoreNode(site, kept, n, device);
          kept := kept + [n];
          if n.device == device {
            existing := existing + {site.canon(n.outbound)};
            names := names + {Lower(n.name)};
          }
        }
      }
      assert nodes[..|nodes|] == nodes;
    }

    /** Sets a member's fields from its group, in the scopes asked for that are not its own exceptions. */
    method ApplyPolicy(k: nat, scopes: set<Scope>) returns (ok: bool)
      requires Valid() && k < |users|
      modifies this`users, this`uuids
      ensures Valid()
      ensures old(uuids) <= uuids
      ensures ok <==> Applicable(site, groups, old(users)[k], scopes)
      ensures ok ==> OnlyMember(old(users), users, k)
      ensures ok ==> FindGroup(groups, users[k].group).Some? && Applied(site, old(users)[k], users[k], FindGroup(groups, users[k].group).value.policy, scopes)
      ensures ok ==> AllKept(old(users)[k], users[k], scopes) && SameIdentities(old(users)[k].nodes, users[k].nodes, old(uuids))
      ensures ok && FindGroup(groups, users[k].group).value.policy.routes.Some? ==>
                ChosenStay(site, old(users)[k].nodes, users[k].nodes, Keys(site, FindGroup(groups, users[k].group).value.policy.routes.value))
    {
      hide AllKept;
      hide SameIdentities;
      hide ChosenStay;
      hide Applied;
      hide Selectable;
      hide Diverges;
      hide Keys;
      hide Outbounds;
      hide FieldsSet;
      hide Proper;
      var was := users[k];
      var g := FindGroup(groups, was.group);
      if g.None? {
        return false;
      }
      var p := g.value.policy;
      var wanted := scopes - was.overrides;
      if RouteScope in wanted && p.routes.Some? {
        ok := AssignDevices(k, p.routes.value);
        if !ok {
          return false;
        }
      }
      ghost var routed := users[k];
      var u := SetFields(users[k], p, scopes);
      SameExceptions(was, routed, u, p, scopes);
      OldUuids(old(users), k, old(uuids));
      PolicySet(site, was, routed, u, p, scopes, old(uuids));
      RatedUuids(users, k, u, uuids);
      users := users[k := u];
      ok := true;
    }

    /** The fields besides the routes. */
    method SetFields(routed: User, p: Policy, scopes: set<Scope>) returns (u: User)
      ensures FieldsSet(routed, routed, u, p, scopes)
    {
      u := routed;
      var wanted := scopes - u.overrides;
      if p.rate.Some? && RateScope !in u.overrides && (RateScope in wanted || RouteScope in wanted) {
        u := u.(up := 0, down := 0, mark := 0, nodes := WithRate(u.nodes, p.rate.value));
      }
      if DeviceScope in wanted && p.devices.Some? {
        u := u.(limit := p.devices.value);
      }
      if QuotaScope in wanted && p.quota.Some? {
        u := u.(bytes := p.quota.value.bytes, mode := p.quota.value.mode);
      }
      if ExpiryScope in wanted && p.expiry.Some? {
        u := u.(expires := p.expiry.value);
      }
    }

    /** Every device of a member gets the group's routes. */
    method AssignDevices(k: nat, routes: seq<Route>) returns (ok: bool)
      requires Valid() && k < |users|
      modifies this`users, this`uuids
      ensures Valid()
      ensures old(uuids) <= uuids
      ensures ok <==> old(users)[k].devices == [] || Selectable(site, routes)
      ensures ok ==> OnlyNodes(old(users), users, k) && forall d :: d in users[k].devices ==> Outbounds(site, users[k].nodes, d) == Keys(site, routes)
      ensures ok ==> forall n :: n in users[k].nodes ==> n in old(users)[k].nodes || n.uuid !in old(uuids)
      ensures ok ==> forall n :: n in old(users)[k].nodes && site.canon(n.outbound) in Keys(site, routes) ==> n in users[k].nodes
    {
      hide Keys;
      hide Assigned;
      hide Outbounds;
      hide Selectable;
      var devices := users[k].devices;
      for i := 0 to |devices|
        invariant Valid() && |users| == |old(users)| && OnlyNodes(old(users), users, k)
        invariant forall j :: 0 <= j < i ==> Outbounds(site, users[k].nodes, devices[j]) == Keys(site, routes)
        invariant old(uuids) <= uuids && (i > 0 ==> Selectable(site, routes))
        invariant forall n :: n in users[k].nodes ==> n in old(users)[k].nodes || n.uuid !in old(uuids)
        invariant forall n :: n in old(users)[k].nodes && site.canon(n.outbound) in Keys(site, routes) ==> n in users[k].nodes
      {
        ghost var before, logins, ids := users[k].nodes, site.reserved + Logins(users), uuids;
        ok := AssignRoutes(k, devices[i], routes);
        if !ok {
          return false;
        }
        AssignedDevice(site, before, users[k].nodes, devices[i], Keys(site, routes), logins, ids);
        AssignedParts(site, before, users[k].nodes, devices[i], Keys(site, routes), logins, ids);
        forall j | 0 <= j < i && devices[j] != devices[i]
          ensures Outbounds(site, users[k].nodes, devices[j]) == Keys(site, routes)
        {
          OtherDevices(site, before, users[k].nodes, devices[i], Keys(site, routes), logins, ids, devices[j]);
        }
      }
      ok := true;
    }

    /**
     Moves members into a group with the exceptions chosen for them. Afterwards none of them differs
     from the group anywhere else, so saving adds no exception. A member that is named in two writings
     is moved twice.
     */
    method SetMembers(id: string, names: seq<string>, overrides: set<Scope>) returns (ok: bool)
      requires Valid()
      modifies this`users, this`uuids
      ensures Valid()
      ensures ok <==> MembersFit(site, groups, old(users), id, names, overrides)
      ensures ok ==> FindGroup(groups, id).Some? && |users| == |old(users)|
      ensures ok ==> forall j :: 0 <= j < |users| ==>
                if Named(old(users), names, j) then Moved(site, groups, old(users)[j], users[j], id, overrides) else users[j] == old(users)[j]
    {
      hide AllKept;
      hide KeepsScope;
      hide SameIdentities;
      hide ChosenStay;
      hide Diverges;
      hide Applied;
      hide Applicable;
      hide NameFits;
      if FindGroup(groups, id).None? || |names| == 0 || |names| > 1000 {
        return false;
      }
      ghost var was, uuids0 := users, uuids;
      assert forall v, n :: v in was && n in v.nodes ==> n.uuid in uuids0;
      NobodyNamed(users);
      for i := 0 to |names|
        invariant Valid() && |users| == |was| && old(uuids) <= uuids
        invariant forall j :: 0 <= j < |was| ==> users[j].name == was[j].name && users[j].devices == was[j].devices
        invariant forall m :: 0 <= m < i ==> NameFits(site, groups, was, id, names, overrides, m)
        invariant forall j :: 0 <= j < |was| ==>
          if Named(was, names[..i], j) then Moved(site, groups, was[j], users[j], id, overrides) else users[j] == was[j]
      {
        var found := FindUser(users, names[i]);
        SameNames(was, users, names[i]);
        if found.None? || names[i] in names[..i] {
          BadNameMisfits(site, groups, was, id, names, overrides, i);
          return false;
        }
        var k := found.value;
        forall j: nat
          ensures Named(was, names[..i + 1], j) <==> Named(was, names[..i], j) || j == k
        {
          NamedNext(was, names, i, j);
        }
        ghost var before := users;
        Regrouped(users, k, id, overrides, uuids);
        users := users[k := users[k].(group := id, overrides := overrides)];
        ghost var moved, ids := users, uuids;
        ok := ApplyPolicy(k, ALL_SCOPES);
        FitsAsApplicable(site, groups, was, id, names, overrides, i, moved[k]);
        if !ok {
          return false;
        }
        AllApplied(site, groups, moved[k], users[k]);
        OldUuids(was, k, ids);
        ExceptionsKept(was[k], before[k], moved[k], users[k], overrides, ids);
      }
      assert names[..|names|] == names;
      ok := true;
    }

    /**
     Changes a group and re-applies what changed. A member has no uncaptured difference afterwards
     exactly when its uncaptured differences before were in scopes that are set again; so if nobody
     had any before, nobody has any afterwards.
     */
    method SaveGroup(id: string, name: string, policy: Policy) returns (ok: bool)
      requires Valid()
      modifies this`groups, this`users, this`uuids
      ensures Valid()
      ensures ok <==> EditFits(site, old(groups), id, name, policy)
      ensures ok ==> FindGroup(old(groups), id).Some? && FindGroup(groups, id) == Some(Group(id, name, policy))
      ensures ok ==> |users| == |old(users)| && forall j :: 0 <= j < |users| && old(users)[j].group != id ==> users[j] == old(users)[j]
      ensures ok ==> forall j :: 0 <= j < |users| && old(users)[j].group == id ==>
                (Settled(site, groups, users[j]) <==>
                  ChangesCover(site, old(users)[j], FindGroup(old(groups), id).value.policy, ChangedScopes(FindGroup(old(groups), id).value.policy, policy)))
      ensures ok && AllSettled(site, old(groups), old(users)) ==> AllSettled(site, groups, users)
      ensures ok ==> forall j :: 0 <= j < |users| && old(users)[j].group == id ==>
                AllKept(old(users)[j], users[j], ChangedScopes(FindGroup(old(groups), id).value.policy, policy))
    {
      hide AllKept;
      hide SameIdentities;
      hide ChosenStay;
      hide ChangesCover;
      hide ChangedScopes;
      hide Diverges;
      hide Applied;
      hide Selectable;
      hide Settled;
      hide Applicable;
      hide NameTaken;
      hide ValidPolicy;
      var g := FindGroup(groups, id);
      if !ValidPolicy(site, policy) || g.None? {
        return false;
      }
      if policy.routes.Some? && g.value.policy.routes != policy.routes {
        var selected := Select(policy.routes.value);
        if selected.None? {
          return false;
        }
      }
      if !site.validName(name) || NameTaken(groups, id, name) {
        return false;
      }
      var changed := ChangedScopes(g.value.policy, policy);
      ghost var was, groupsWere := users, groups;
      groups := Replace(groups, Group(id, name, policy));
      ReplaceFound(groupsWere, Group(id, name, policy));
      for i := 0 to |users|
        invariant Valid() && groups == Replace(groupsWere, Group(id, name, policy))
        invariant |users| == |was| && (forall j :: i <= j < |was| ==> users[j] == was[j])
        invariant forall j :: 0 <= j < i && was[j].group != id ==> users[j] == was[j]
        invariant forall j :: 0 <= j < i && Settled(site, groupsWere, was[j]) ==> Settled(site, groups, users[j])
        invariant forall j :: 0 <= j < i && was[j].group == id ==>
          (Settled(site, groups, users[j]) <==> ChangesCover(site, was[j], g.value.policy, changed)) && AllKept(was[j], users[j], changed)
      {
        if users[i].group == id {
          ChangedIsApplicable(site, groups, users[i], g.value.policy, policy);
          ok := ApplyPolicy(i, changed);
          assert ok; // its routes were selected above
          ChangedApplied(site, groupsWere, groups, was[i], users[i], g.value.policy, policy, changed);
        } else {
          OtherGroup(site, groupsWere, groups, users[i], Group(id, name, policy));
        }
      }
      ok := true;
    }
  }

  predicate Selectable(site: Site, routes: seq<Route>) {
    && (forall i, j :: 0 <= i < j < |routes| ==> site.canon(routes[i].outbound) != site.canon(routes[j].outbound))
    && (forall i :: 0 <= i < |routes| ==>
      var key := site.canon(routes[i].outbound);
      key in site.available && (MESH_PREFIX <= key ==> site.meshReady))
  }

  lemma SelectNext(site: Site, routes: seq<Route>, i: nat)
    requires i < |routes| && Selectable(site, routes[..i])
    ensures var key := site.canon(routes[i].outbound);
            && Keys(site, routes[..i + 1]) == Keys(site, routes[..i]) + {key}
            && (Selectable(site, routes[..i + 1]) <==>
              key !in Keys(site, routes[..i]) && key in site.available && (MESH_PREFIX <= key ==> site.meshReady))
            && (Selectable(site, routes) ==> Selectable(site, routes[..i + 1]))
  {
    assert routes[..i + 1] == routes[..i] + [routes[i]];
    var key := site.canon(routes[i].outbound);
    if key in Keys(site, routes[..i]) {
      var r :| r in routes[..i] && site.canon(r.outbound) == key;
      var j :| 0 <= j < i && routes[..i][j] == r;
      assert site.canon(routes[..i + 1][j].outbound) == site.canon(routes[..i + 1][i].outbound);
    } else {
      forall j | 0 <= j < i
        ensures site.canon(routes[j].outbound) != key
      {
        assert routes[..i][j] in routes[..i];
      }
    }
  }

  /** One user's nodes may have changed, and nothing else. */
  predicate OnlyNodes(before: seq<User>, after: seq<User>, k: nat)
    requires k < |before|
  {
    && |after| == |before| && after[k] == before[k].(nodes := after[k].nodes)
    && forall j :: 0 <= j < |before| && j != k ==> after[j] == before[j]
  }

  function NamesOf(nodes: seq<Node>, device: string): set<string> {
    set n | n in nodes && n.device == device :: Lower(n.name)
  }

  lemma OneMoreNode(site: Site, nodes: seq<Node>, n: Node, device: string)
    ensures Outbounds(site, nodes + [n], device) == Outbounds(site, nodes, device) + if n.device == device then {site.canon(n.outbound)} else {}
    ensures NamesOf(nodes + [n], device) == NamesOf(nodes, device) + if n.device == device then {Lower(n.name)} else {}
  {
    hide Names.Lower;
    assert forall m :: m in nodes + [n] <==> m in nodes || m == n;
  }

  lemma UnusedUuid(used: set<nat>)
    ensures exists id: nat :: id !in used
  {
    var top := UuidBound(used);
    assert top !in used;
  }

  lemma {:induction false} UuidBound(used: set<nat>) returns (top: nat)
    ensures forall id :: id in used ==> id < top
  {
    if used == {} {
      top := 0;
    } else {
      var id :| id in used;
      var rest := UuidBound(used - {id});
      top := if id < rest then rest else id + 1;
      assert used == used - {id} + {id};
    }
  }

  /** The names, logins and secrets in use follow the nodes added so far. */
  predicate Tracks(kept: seq<Node>, added: seq<Node>, device: string, names: set<string>,
                   taken0: set<string>, taken: set<string>, uuids0: set<nat>, uuids: set<nat>) {
    && names == NamesOf(kept, device) + (set n | n in added :: Lower(n.name))
    && taken == taken0 + (set n | n in added :: n.auth)
    && uuids == uuids0 + (set n | n in added :: n.uuid)
  }

  predicate On(nodes: seq<Node>, key: string) {
    exists n :: n in nodes && n.outbound == key
  }

  predicate Among(site: Site, routes: seq<Route>, key: string) {
    exists r :: r in routes && site.canon(r.outbound) == key
  }

  /** Every route so far is one the device has or one that was added, and nothing else was. */
  predicate Covers(site: Site, routes: seq<Route>, existing: set<string>, added: seq<Node>) {
    && (forall r :: r in routes ==> site.canon(r.outbound) in existing || On(added, site.canon(r.outbound)))
    && (forall n :: n in added ==> n.outbound !in existing && Among(site, routes, n.outbound))
  }

  lemma NothingAdded(site: Site, kept: seq<Node>, device: string, keys: set<string>, taken: set<string>, uuids: set<nat>)
    ensures Added(site, kept, [], device, keys, taken, uuids)
    ensures Tracks(kept, [], device, NamesOf(kept, device), taken, taken, uuids, uuids)
    ensures forall existing :: Covers(site, [], existing, [])
  {
  }

  lemma IsMadeFor(site: Site, u: User, device: string, routes: seq<Route>, i: nat, x: Node, n: nat, a: nat)
    requires i < |routes| && x.outbound == site.canon(routes[i].outbound) && x.name == Numbered(routes[i].name, " (", n, ")")
    requires x.auth == Numbered(u.name + ":" + Slug(device) + ":" + Slug(x.name), "-", a, "")
    requires x.up == if RateScope in u.overrides then LeastRate(u.nodes, device, true) else 0
    requires x.down == if RateScope in u.overrides then LeastRate(u.nodes, device, false) else 0
    ensures MadeFor(site, u, device, routes, x)
  {
    hide Slug;
    hide Numbered;
    assert routes[i] in routes;
  }

  lemma NodesKeptOrAdded(site: Site, before: seq<Node>, kept: seq<Node>, added: seq<Node>, device: string, keys: set<string>)
    requires kept == Kept(site, before, device, keys)
    ensures forall n :: n in kept + added ==> n in before || n in added
  {
    forall n | n in kept
      ensures n in before
    {
      KeptIsPart(site, before, device, keys, n);
    }
  }

  lemma KeyIsChosen(site: Site, routes: seq<Route>, i: nat)
    requires i < |routes|
    ensures site.canon(routes[i].outbound) in Keys(site, routes)
  {
    assert routes[i] in routes;
  }

  lemma CoversKnown(site: Site, routes: seq<Route>, i: nat, existing: set<string>, added: seq<Node>)
    requires i < |routes| && Covers(site, routes[..i], existing, added) && site.canon(routes[i].outbound) in existing
    ensures Covers(site, routes[..i + 1], existing, added)
  {
    hide On;
    assert forall r :: r in routes[..i + 1] <==> r in routes[..i] || r == routes[i];
    forall key | Among(site, routes[..i], key)
      ensures Among(site, routes[..i + 1], key)
    {
      AmongMore(site, routes, i, key);
    }
  }

  lemma AmongMore(site: Site, routes: seq<Route>, i: nat, key: string)
    requires i < |routes|
    ensures Among(site, routes[..i], key) || key == site.canon(routes[i].outbound) ==> Among(site, routes[..i + 1], key)
  {
    assert forall r :: r in routes[..i + 1] <==> r in routes[..i] || r == routes[i];
  }

  lemma OnMore(added: seq<Node>, x: Node, key: string)
    ensures On(added, key) || key == x.outbound ==> On(added + [x], key)
  {
    assert forall n :: n in added + [x] <==> n in added || n == x;
  }

  /** A selected route that the device does not have has not been added before. */
  lemma NewOutbound(site: Site, routes: seq<Route>, i: nat, existing: set<string>, added: seq<Node>)
    requires i < |routes| && Selectable(site, routes) && Covers(site, routes[..i], existing, added)
    ensures forall n :: n in added ==> n.outbound != site.canon(routes[i].outbound)
  {
    forall n | n in added
      ensures n.outbound != site.canon(routes[i].outbound)
    {
      var r :| r in routes[..i] && site.canon(r.outbound) == n.outbound;
      var j :| 0 <= j < i && routes[..i][j] == r;
      assert site.canon(routes[j].outbound) != site.canon(routes[i].outbound);
    }
  }

  lemma CoversNew(site: Site, routes: seq<Route>, i: nat, existing: set<string>, added: seq<Node>, x: Node)
    requires i < |routes| && Covers(site, routes[..i], existing, added)
    requires x.outbound == site.canon(routes[i].outbound) && x.outbound !in existing
    ensures Covers(site, routes[..i + 1], existing, added + [x])
  {
    hide On;
    hide Among;
    forall r | r in routes[..i + 1]
      ensures site.canon(r.outbound) in existing || On(added + [x], site.canon(r.outbound))
    {
      assert r in routes[..i] || r == routes[i];
      OnMore(added, x, site.canon(r.outbound));
    }
    forall n | n in added + [x]
      ensures n.outbound !in existing && Among(site, routes[..i + 1], n.outbound)
    {
      assert n in added || n == x;
      AmongMore(site, routes, i, n.outbound);
    }
  }

  lemma AddedNext(site: Site, kept: seq<Node>, added: seq<Node>, x: Node, device: string, keys: set<string>, names: set<string>,
                  taken0: set<string>, taken: set<string>, uuids0: set<nat>, uuids: set<nat>)
    requires Added(site, kept, added, device, keys, taken0, uuids0)
    requires Tracks(kept, added, device, names, taken0, taken, uuids0, uuids)
    requires x.device == device && x.outbound in keys && x.outbound !in Outbounds(site, kept, device)
    requires forall n :: n in added ==> n.outbound != x.outbound
    requires Lower(x.name) !in names && x.auth !in taken && x.uuid !in uuids
    ensures Added(site, kept, added + [x], device, keys, taken0, uuids0)
    ensures Tracks(kept, added + [x], device, names + {Lower(x.name)}, taken0, taken + {x.auth}, uuids0, uuids + {x.uuid})
  {
    hide Names.Lower;
    hide Outbounds;
    assert forall n :: n in added + [x] <==> n in added || n == x;
    forall m | m in kept && m.device == device
      ensures Lower(m.name) != Lower(x.name)
    {
      assert Lower(m.name) in NamesOf(kept, device);
    }
    forall i | 0 <= i < |added|
      ensures added[i].outbound != x.outbound && added[i].auth != x.auth && added[i].uuid != x.uuid && Lower(added[i].name) != Lower(x.name)
    {
      assert added[i] in added;
      assert Lower(added[i].name) in names && added[i].auth in taken && added[i].uuid in uuids;
    }
  }

  /** When every route is covered the device has exactly the chosen ones. */
  lemma AllCovered(site: Site, before: seq<Node>, kept: seq<Node>, added: seq<Node>, device: string, routes: seq<Route>, keys: set<string>,
                   taken: set<string>, uuids: set<nat>)
    requires Proper(site) && kept == Kept(site, before, device, keys) && keys == Keys(site, routes)
    requires Added(site, kept, added, device, keys, taken, uuids) && Covers(site, routes, Outbounds(site, kept, device), added)
    ensures Assigned(site, before, kept + added, device, keys, taken, uuids)
  {
    var after := kept + added;
    assert after[..|kept|] == kept && after[|kept|..] == added;
    forall key
      ensures key in Outbounds(site, after, device) <==> key in keys
    {
      ExactlyChosen(site, before, kept, added, device, routes, keys, taken, uuids, key);
    }
  }

  lemma ExactlyChosen(site: Site, before: seq<Node>, kept: seq<Node>, added: seq<Node>, device: string, routes: seq<Route>, keys: set<string>,
                      taken: set<string>, uuids: set<nat>, key: string)
    requires Proper(site) && kept == Kept(site, before, device, keys) && keys == Keys(site, routes)
    requires Added(site, kept, added, device, keys, taken, uuids) && Covers(site, routes, Outbounds(site, kept, device), added)
    ensures key in Outbounds(site, kept + added, device) <==> key in keys
  {
    hide Kept;
    hide Names.Lower;
    if key in Outbounds(site, kept + added, device) {
      var n :| n in kept + added && n.device == device && site.canon(n.outbound) == key;
      KeptIsPart(site, before, device, keys, n);
      if n in added {
        assert Among(site, routes, n.outbound);
        Stable(site, routes, n.outbound);
      }
    }
    if key in keys {
      assert Among(site, routes, key);
      Stable(site, routes, key);
      if key !in Outbounds(site, kept, device) {
        assert On(added, key);
        var n :| n in added && n.outbound == key;
        assert n in kept + added;
      } else {
        var n :| n in kept && n.device == device && site.canon(n.outbound) == key;
        assert n in kept + added;
      }
    }
  }

  /** A route's canonical name is its own. */
  lemma Stable(site: Site, routes: seq<Route>, key: string)
    requires Proper(site) && Among(site, routes, key)
    ensures site.canon(key) == key && key in Keys(site, routes)
  {
  }

  lemma NodesHaveUuids(users: seq<User>, k: nat, kept: seq<Node>, added: seq<Node>, taken0: set<string>, taken: set<string>,
                       device: string, names: set<string>, uuids0: set<nat>, uuids: set<nat>, site: Site, keys: set<string>)
    requires k < |users| && (forall u, n :: u in users && n in u.nodes ==> n.uuid in uuids0)
    requires kept == Kept(site, users[k].nodes, device, keys) && Tracks(kept, added, device, names, taken0, taken, uuids0, uuids)
    ensures forall u, n :: u in users[k := users[k].(nodes := kept + added)] && n in u.nodes ==> n.uuid in uuids
  {
    hide NamesOf;
    hide Names.Lower;
    var after := users[k := users[k].(nodes := kept + added)];
    forall u, n | u in after && n in u.nodes
      ensures n.uuid in uuids
    {
      KeptIsPart(site, users[k].nodes, device, keys, n);
      assert users[k] in users;
      assert u in users || u == after[k];
    }
  }

  // ------------------------------------------------------------------------------------------
  // Applying a policy
  // ------------------------------------------------------------------------------------------

  function WithRate(nodes: seq<Node>, rate: Rate): (r: seq<Node>)
    ensures |r| == |nodes| && forall i :: 0 <= i < |nodes| ==> r[i] == nodes[i].(up := rate.up, down := rate.down)
  {
    seq(|nodes|, i requires 0 <= i < |nodes| => nodes[i].(up := rate.up, down := rate.down))
  }

  predicate SameMember(before: User, after: User) {
    after.name == before.name && after.group == before.group && after.overrides == before.overrides && after.devices == before.devices
  }

  predicate OnlyMember(before: seq<User>, after: seq<User>, k: nat)
    requires k < |before|
  {
    |after| == |before| && SameMember(before[k], after[k]) && forall j :: 0 <= j < |before| && j != k ==> after[j] == before[j]
  }

  /** The scope is set again: it was asked for, or its rates are because the routes are. */
  predicate Reapplied(u: User, scopes: set<Scope>, scope: Scope) {
    scope in scopes || (scope == RateScope && RouteScope in scopes - u.overrides)
  }

  /** In every scope that is not an exception: what is set again is as the group says, the rest differs as before. */
  predicate Applied(site: Site, before: User, after: User, p: Policy, scopes: set<Scope>) {
    && SameMember(before, after)
    && forall scope: Scope :: scope !in before.overrides ==>
      if Reapplied(before, scopes, scope) then !Diverges(site, after, p, scope)
      else Diverges(site, after, p, scope) <==> Diverges(site, before, p, scope)
  }

  predicate SameButRate(a: Node, b: Node) {
    b == a.(up := b.up, down := b.down)
  }

  /** Every node is one from before, but for its rates, or has a secret nobody had. */
  predicate SameIdentities(before: seq<Node>, after: seq<Node>, uuids: set<nat>) {
    forall n :: n in after ==> n.uuid !in uuids || exists m :: m in before && SameButRate(m, n)
  }

  /** Nodes on the routes given stay, but for their rates. */
  predicate ChosenStay(site: Site, before: seq<Node>, after: seq<Node>, keys: set<string>) {
    forall m :: m in before && site.canon(m.outbound) in keys ==> exists n :: n in after && SameButRate(m, n)
  }

  /** What a scope covers is untouched. */
  predicate KeepsScope(before: User, after: User, scope: Scope) {
    match scope
    case DeviceScope => after.limit == before.limit
    case QuotaScope => after.bytes == before.bytes && after.mode == before.mode
    case ExpiryScope => after.expires == before.expires
    case RateScope =>
      && after.up == before.up && after.down == before.down && after.mark == before.mark
      && forall n :: n in after.nodes ==> n in before.nodes || forall m :: m in before.nodes ==> m.uuid != n.uuid
    case RouteScope =>
      |after.nodes| == |before.nodes| && forall i :: 0 <= i < |before.nodes| ==> SameButRate(before.nodes[i], after.nodes[i])
  }

  /** Exceptions and scopes that are not set again are untouched. */
  predicate AllKept(before: User, after: User, scopes: set<Scope>) {
    forall scope: Scope :: scope in before.overrides || !Reapplied(before, scopes, scope) ==> KeepsScope(before, after, scope)
  }

  lemma OldUuids(users: seq<User>, k: nat, uuids: set<nat>)
    requires k < |users| && forall u, n :: u in users && n in u.nodes ==> n.uuid in uuids
    ensures forall n :: n in users[k].nodes ==> n.uuid in uuids
  {
    assert users[k] in users;
  }

  lemma FieldsKept(before: User, routed: User, after: User, p: Policy, scopes: set<Scope>, uuids: set<nat>)
    requires routed == before.(nodes := routed.nodes) && FieldsSet(before, routed, after, p, scopes)
    requires RouteScope !in scopes - before.overrides ==> routed == before
    requires forall n :: n in before.nodes ==> n.uuid in uuids
    requires forall n :: n in routed.nodes ==> n in before.nodes || n.uuid !in uuids
    ensures AllKept(before, after, scopes)
  {
    forall scope: Scope | scope in before.overrides || !Reapplied(before, scopes, scope)
      ensures KeepsScope(before, after, scope)
    {
      match scope
      case RateScope =>
      case RouteScope =>
      case _ =>
    }
  }

  lemma IdentitiesKept(site: Site, before: seq<Node>, routed: seq<Node>, after: seq<Node>, p: Policy, uuids: set<nat>)
    requires after == routed || exists rate :: after == WithRate(routed, rate)
    requires forall n :: n in routed ==> n in before || n.uuid !in uuids
    requires p.routes.Some? ==> forall n :: n in before && site.canon(n.outbound) in Keys(site, p.routes.value) ==> n in routed
    ensures SameIdentities(before, after, uuids)
    ensures p.routes.Some? ==> ChosenStay(site, before, after, Keys(site, p.routes.value))
  {
    hide Keys;
    forall n | n in after
      ensures exists m :: m in routed && SameButRate(m, n)
    {
      var i :| 0 <= i < |after| && after[i] == n;
      assert routed[i] in routed && SameButRate(routed[i], n);
    }
    forall m | m in routed
      ensures exists n :: n in after && SameButRate(m, n)
    {
      var i :| 0 <= i < |routed| && routed[i] == m;
      assert after[i] in after && SameButRate(m, after[i]);
    }
  }

  lemma AssignedParts(site: Site, before: seq<Node>, after: seq<Node>, device: string, keys: set<string>, logins: set<string>, uuids: set<nat>)
    requires Assigned(site, before, after, device, keys, logins, uuids)
    ensures forall n :: n in after ==> n in before || n.uuid !in uuids
    ensures forall n :: n in before && site.canon(n.outbound) in keys ==> n in after
  {
    hide Names.Lower;
    hide Outbounds;
    var kept := Kept(site, before, device, keys);
    assert after == kept + after[|kept|..];
    forall n
      ensures n in kept <==> n in before && (n.device != device || site.canon(n.outbound) in keys)
    {
      KeptIsPart(site, before, device, keys, n);
    }
  }

  lemma AssignedDevice(site: Site, before: seq<Node>, after: seq<Node>, device: string, keys: set<string>, logins: set<string>, uuids: set<nat>)
    requires Assigned(site, before, after, device, keys, logins, uuids)
    ensures Outbounds(site, after, device) == keys
  {
  }

  lemma RatedOutbounds(site: Site, nodes: seq<Node>, rate: Rate, device: string)
    ensures Outbounds(site, WithRate(nodes, rate), device) == Outbounds(site, nodes, device)
  {
    var rated := WithRate(nodes, rate);
    forall key
      ensures key in Outbounds(site, rated, device) <==> key in Outbounds(site, nodes, device)
    {
      if key in Outbounds(site, nodes, device) {
        var n :| n in nodes && n.device == device && site.canon(n.outbound) == key;
        var i :| 0 <= i < |nodes| && nodes[i] == n;
        assert rated[i] in rated;
      }
      if key in Outbounds(site, rated, device) {
        var n :| n in rated && n.device == device && site.canon(n.outbound) == key;
        var i :| 0 <= i < |nodes| && rated[i] == n;
        assert nodes[i] in nodes;
      }
    }
  }

  lemma RatedUuids(users: seq<User>, k: nat, u: User, uuids: set<nat>)
    requires k < |users| && forall v, n :: v in users && n in v.nodes ==> n.uuid in uuids
    requires u.nodes == users[k].nodes || exists rate :: u.nodes == WithRate(users[k].nodes, rate)
    ensures forall v, n :: v in users[k := u] && n in v.nodes ==> n.uuid in uuids
  {
    forall v, n | v in users[k := u] && n in v.nodes
      ensures n.uuid in uuids
    {
      assert users[k] in users;
      if v == u {
        var i :| 0 <= i < |u.nodes| && u.nodes[i] == n;
        assert users[k].nodes[i].uuid == n.uuid;
        assert users[k].nodes[i] in users[k].nodes;
      } else {
        assert v in users;
      }
    }
  }

  /** The fields set after the routes. */
  predicate FieldsSet(before: User, routed: User, after: User, p: Policy, scopes: set<Scope>) {
    var wanted := scopes - before.overrides;
    var rated := p.rate.Some? && RateScope !in before.overrides && (RateScope in wanted || RouteScope in wanted);
    && after == routed.(
      up := if rated then 0 else routed.up, down := if rated then 0 else routed.down, mark := if rated then 0 else routed.mark,
      nodes := if rated then WithRate(routed.nodes, p.rate.value) else routed.nodes,
      limit := if DeviceScope in wanted && p.devices.Some? then p.devices.value else routed.limit,
      bytes := if QuotaScope in wanted && p.quota.Some? then p.quota.value.bytes else routed.bytes,
      mode := if QuotaScope in wanted && p.quota.Some? then p.quota.value.mode else routed.mode,
      expires := if ExpiryScope in wanted && p.expiry.Some? then p.expiry.value else routed.expires)
  }

  lemma SameExceptions(before: User, routed: User, after: User, p: Policy, scopes: set<Scope>)
    requires routed.overrides == before.overrides && FieldsSet(routed, routed, after, p, scopes)
    ensures FieldsSet(before, routed, after, p, scopes)
    ensures after.name == routed.name && after.group == routed.group && after.overrides == routed.overrides && after.devices == routed.devices
  {
  }

  lemma FieldsApplied(site: Site, before: User, routed: User, after: User, p: Policy, scopes: set<Scope>)
    requires routed == before.(nodes := routed.nodes)
    requires var wanted := scopes - before.overrides;
             if RouteScope in wanted && p.routes.Some?
             then forall d :: d in routed.devices ==> Outbounds(site, routed.nodes, d) == Keys(site, p.routes.value)
             else routed == before
    requires FieldsSet(before, routed, after, p, scopes)
    ensures Applied(site, before, after, p, scopes)
    ensures after.nodes == routed.nodes || exists rate :: after.nodes == WithRate(routed.nodes, rate)
  {
    hide Outbounds;
    hide Keys;
    RatedNodes(site, routed, p);
    forall scope: Scope | scope !in before.overrides
      ensures if Reapplied(before, scopes, scope) then !Diverges(site, after, p, scope)
              else Diverges(site, after, p, scope) <==> Diverges(site, before, p, scope)
    {
      match scope
      case RouteScope =>
      case RateScope =>
      case _ =>
    }
  }

  /** Routes first, then the other fields. */
  lemma PolicySet(site: Site, before: User, routed: User, after: User, p: Policy, scopes: set<Scope>, uuids: set<nat>)
    requires routed == before.(nodes := routed.nodes) && FieldsSet(before, routed, after, p, scopes)
    requires if RouteScope in scopes - before.overrides && p.routes.Some?
             then forall d :: d in routed.devices ==> Outbounds(site, routed.nodes, d) == Keys(site, p.routes.value)
             else routed == before
    requires forall n :: n in before.nodes ==> n.uuid in uuids
    requires forall n :: n in routed.nodes ==> n in before.nodes || n.uuid !in uuids
    requires p.routes.Some? ==> forall n :: n in before.nodes && site.canon(n.outbound) in Keys(site, p.routes.value) ==> n in routed.nodes
    ensures Applied(site, before, after, p, scopes) && AllKept(before, after, scopes)
    ensures SameIdentities(before.nodes, after.nodes, uuids)
    ensures p.routes.Some? ==> ChosenStay(site, before.nodes, after.nodes, Keys(site, p.routes.value))
    ensures after.nodes == routed.nodes || exists rate :: after.nodes == WithRate(routed.nodes, rate)
  {
    hide Applied;
    hide AllKept;
    hide SameIdentities;
    hide ChosenStay;
    FieldsApplied(site, before, routed, after, p, scopes);
    FieldsKept(before, routed, after, p, scopes, uuids);
    IdentitiesKept(site, before.nodes, routed.nodes, after.nodes, p, uuids);
  }

  lemma RatedNodes(site: Site, u: User, p: Policy)
    ensures p.rate.Some? ==> forall d :: Outbounds(site, WithRate(u.nodes, p.rate.value), d) == Outbounds(site, u.nodes, d)
  {
    if p.rate.Some? {
      forall d
        ensures Outbounds(site, WithRate(u.nodes, p.rate.value), d) == Outbounds(site, u.nodes, d)
      {
        RatedOutbounds(site, u.nodes, p.rate.value, d);
      }
    }
  }

  // ------------------------------------------------------------------------------------------
  // Groups and members
  // ------------------------------------------------------------------------------------------

  /** Names are looked up without regard to case. */
  function FindUser(users: seq<User>, name: string): Option<nat> {
    if users == [] then None
    else
      match FindUser(users[..|users| - 1], name)
      case Some(k) => Some(k)
      case None => if Lower(users[|users| - 1].name) == Lower(name) then Some(|users| - 1) else None
  }

  /** The first member with the name is found, if there is one. */
  lemma {:induction false} FirstOfName(users: seq<User>, name: string)
    ensures match FindUser(users, name)
            case Some(k) => k < |users| && Lower(users[k].name) == Lower(name) && forall j :: 0 <= j < k ==> Lower(users[j].name) != Lower(name)
            case None => forall j :: 0 <= j < |users| ==> Lower(users[j].name) != Lower(name)
  {
    hide Names.Lower;
    if users != [] {
      FirstOfName(users[..|users| - 1], name);
    }
  }

  lemma {:induction false} SameNames(before: seq<User>, after: seq<User>, name: string)
    requires |after| == |before| && forall j :: 0 <= j < |before| ==> after[j].name == before[j].name
    ensures FindUser(before, name) == FindUser(after, name)
    ensures FindUser(after, name).Some? ==> FindUser(after, name).value < |after|
    decreases |before|
  {
    hide Names.Lower;
    if before != [] {
      SameNames(before[..|before| - 1], after[..|after| - 1], name);
    }
  }

  /** The member at a place is one of those named. */
  predicate Named(users: seq<User>, names: seq<string>, j: nat) {
    exists i :: 0 <= i < |names| && FindUser(users, names[i]) == Some(j)
  }

  lemma NobodyNamed(users: seq<User>)
    ensures forall j: nat, names: seq<string> :: names == [] ==> !Named(users, names, j)
  {
  }

  /** One more name, and what it says about the member at one place. */
  lemma NamedNext(users: seq<User>, names: seq<string>, i: nat, j: nat)
    requires i < |names|
    ensures Named(users, names[..i + 1], j) <==> Named(users, names[..i], j) || FindUser(users, names[i]) == Some(j)
  {
    hide FindUser;
    if Named(users, names[..i], j) {
      var m :| 0 <= m < i && FindUser(users, names[..i][m]) == Some(j);
      assert FindUser(users, names[..i + 1][m]) == Some(j);
    }
    if FindUser(users, names[i]) == Some(j) {
      assert FindUser(users, names[..i + 1][i]) == Some(j);
    }
    if Named(users, names[..i + 1], j) {
      var m :| 0 <= m < i + 1 && FindUser(users, names[..i + 1][m]) == Some(j);
      assert m < i ==> FindUser(users, names[..i][m]) == Some(j);
    }
  }

  /**
   A name in the list is of a member and does not occur before in the same writing, and if the member
   takes the group's routes onto a device they can be selected. Two writings of one name are accepted.
   */
  predicate NameFits(site: Site, groups: seq<Group>, users: seq<User>, id: string, names: seq<string>, overrides: set<Scope>, m: nat)
    requires m < |names|
  {
    && names[m] !in names[..m]
    && var k := FindUser(users, names[m]);
       k.Some? && (k.value < |users| ==> Applicable(site, groups, users[k.value].(group := id, overrides := overrides), ALL_SCOPES))
  }

  /** A membership change is accepted exactly then. */
  predicate MembersFit(site: Site, groups: seq<Group>, users: seq<User>, id: string, names: seq<string>, overrides: set<Scope>) {
    && FindGroup(groups, id).Some? && 1 <= |names| <= 1000
    && forall m :: 0 <= m < |names| ==> NameFits(site, groups, users, id, names, overrides, m)
  }

  /**
   In other words: a group, 1 to 1000 different writings of members' names, and for every member that
   has devices and takes routes of the group as the first of its name, routes that can be selected.
   */
  lemma MembersFitExactly(site: Site, groups: seq<Group>, users: seq<User>, id: string, names: seq<string>, overrides: set<Scope>)
    ensures MembersFit(site, groups, users, id, names, overrides) <==>
            && FindGroup(groups, id).Some? && names != [] && |names| < 1001
            && (forall m, l :: 0 <= l < m < |names| ==> names[l] != names[m])
            && (forall m :: 0 <= m < |names| ==> FindUser(users, names[m]).Some?)
            && (FindGroup(groups, id).value.policy.routes.Some? && RouteScope !in overrides
                && (exists m :: 0 <= m < |names| && TakesRoutes(users, names[m])) ==>
                  Selectable(site, FindGroup(groups, id).value.policy.routes.value))
  {
    forall name
      ensures FindUser(users, name).Some? ==> FindUser(users, name).value < |users|
    {
      FirstOfName(users, name);
    }
    forall m | 0 <= m < |names|
      ensures NameFits(site, groups, users, id, names, overrides, m) <==>
              && names[m] !in names[..m] && FindUser(users, names[m]).Some?
              && FindGroup(groups, id).Some?
              && (FindGroup(groups, id).value.policy.routes.Some? && RouteScope !in overrides && TakesRoutes(users, names[m]) ==>
                    Selectable(site, FindGroup(groups, id).value.policy.routes.value))
    {
      NameFitsExactly(site, groups, users, id, names, overrides, m);
    }
    NoRepeats(names);
    hide NameFits;
    hide TakesRoutes;
    hide FindUser;
    hide FindGroup;
    hide Selectable;
  }

  lemma NameFitsExactly(site: Site, groups: seq<Group>, users: seq<User>, id: string, names: seq<string>, overrides: set<Scope>, m: nat)
    requires m < |names| && (FindUser(users, names[m]).Some? ==> FindUser(users, names[m]).value < |users|)
    ensures NameFits(site, groups, users, id, names, overrides, m) <==>
            && names[m] !in names[..m] && FindUser(users, names[m]).Some?
            && FindGroup(groups, id).Some?
            && (FindGroup(groups, id).value.policy.routes.Some? && RouteScope !in overrides && TakesRoutes(users, names[m]) ==>
                  Selectable(site, FindGroup(groups, id).value.policy.routes.value))
  {
    hide Selectable;
    hide FindUser;
    hide FindGroup;
    EveryScope();
  }

  lemma NoRepeats(names: seq<string>)
    ensures (forall m :: 0 <= m < |names| ==> names[m] !in names[..m]) <==> forall m, l :: 0 <= l < m < |names| ==> names[l] != names[m]
  {
    if forall m :: 0 <= m < |names| ==> names[m] !in names[..m] {
      forall m, l | 0 <= l < m < |names|
        ensures names[l] != names[m]
      {
        assert names[..m][l] == names[l];
      }
    }
  }

  predicate TakesRoutes(users: seq<User>, name: string) {
    var k := FindUser(users, name);
    k.Some? && k.value < |users| && users[k.value].devices != []
  }

  lemma BadNameMisfits(site: Site, groups: seq<Group>, users: seq<User>, id: string, names: seq<string>, overrides: set<Scope>, i: nat)
    requires i < |names| && (FindUser(users, names[i]).None? || names[i] in names[..i])
    ensures !NameFits(site, groups, users, id, names, overrides, i)
  {
  }

  /** What applying the policy depends on does not change when a member is met again. */
  lemma FitsAsApplicable(site: Site, groups: seq<Group>, users: seq<User>, id: string, names: seq<string>, overrides: set<Scope>, i: nat, moved: User)
    requires i < |names| && names[i] !in names[..i] && FindUser(users, names[i]).Some?
    requires FindUser(users, names[i]).value < |users|
    requires moved.group == id && moved.overrides == overrides && moved.devices == users[FindUser(users, names[i]).value].devices
    ensures NameFits(site, groups, users, id, names, overrides, i) <==> Applicable(site, groups, moved, ALL_SCOPES)
  {
    hide Selectable;
    hide FindUser;
  }

  /** What the change leaves of a member, met once or several times. */
  predicate Moved(site: Site, groups: seq<Group>, was: User, now: User, id: string, overrides: set<Scope>) {
    && now.group == id && now.overrides == overrides && now.name == was.name && Settled(site, groups, now)
    && forall scope :: scope in overrides ==> KeepsScope(was, now, scope)
  }

  lemma KeepsItself(u: User, scope: Scope)
    ensures KeepsScope(u, u, scope)
  {
  }

  /** Applying the policy once more keeps the fields of the exceptions too. */
  lemma KeptAgain(was: User, cur: User, now: User, scope: Scope, uuids: set<nat>)
    requires KeepsScope(was, cur, scope) && KeepsScope(cur, now, scope)
    requires SameIdentities(cur.nodes, now.nodes, uuids) && forall m :: m in was.nodes ==> m.uuid in uuids
    ensures KeepsScope(was, now, scope)
  {
    match scope
    case RateScope =>
      forall n | n in now.nodes && n !in was.nodes
        ensures forall m :: m in was.nodes ==> m.uuid != n.uuid
      {
      }
    case _ =>
  }

  lemma ExceptionsKept(was: User, cur: User, moved: User, now: User, overrides: set<Scope>, uuids: set<nat>)
    requires cur == was || forall scope :: scope in overrides ==> KeepsScope(was, cur, scope)
    requires moved == cur.(group := moved.group, overrides := overrides) && AllKept(moved, now, ALL_SCOPES)
    requires SameIdentities(moved.nodes, now.nodes, uuids) && forall m :: m in was.nodes ==> m.uuid in uuids
    ensures forall scope :: scope in overrides ==> KeepsScope(was, now, scope)
  {
    forall scope | scope in overrides
      ensures KeepsScope(was, now, scope)
    {
      assert KeepsScope(moved, now, scope);
      KeepsItself(was, scope);
      SameFields(cur, moved, now, scope);
      KeptAgain(was, cur, now, scope, uuids);
    }
  }

  lemma SameFields(cur: User, moved: User, now: User, scope: Scope)
    requires moved == cur.(group := moved.group, overrides := moved.overrides) && KeepsScope(moved, now, scope)
    ensures KeepsScope(cur, now, scope)
  {
  }

  lemma Regrouped(users: seq<User>, k: nat, id: string, overrides: set<Scope>, uuids: set<nat>)
    requires k < |users| && forall v, n :: v in users && n in v.nodes ==> n.uuid in uuids
    ensures forall v, n :: v in users[k := users[k].(group := id, overrides := overrides)] && n in v.nodes ==> n.uuid in uuids
  {
    RatedUuids(users, k, users[k].(group := id, overrides := overrides), uuids);
  }

  /** With all scopes applied a member has no difference but its exceptions. */
  lemma AllApplied(site: Site, groups: seq<Group>, before: User, after: User)
    requires FindGroup(groups, after.group).Some? && Applied(site, before, after, FindGroup(groups, after.group).value.policy, ALL_SCOPES)
    ensures Settled(site, groups, after)
  {
    hide Diverges;
    EveryScope();
  }

  predicate AllSettled(site: Site, groups: seq<Group>, users: seq<User>) {
    forall j :: 0 <= j < |users| ==> Settled(site, groups, users[j])
  }

  /** The highest limit one rule can have, in bytes per second. */
  const MAX_BYTES_PER_SECOND := 0xffff_ffff

  predicate ValidRate(mbps: int) {
    0 <= mbps && mbps * 1_000_000 <= 8 * MAX_BYTES_PER_SECOND
  }

  predicate ValidRoute(site: Site, r: Route) {
    |r.outbound| <= 256 && (forall c :: c in r.outbound ==> c != '\r' && c != '\n' && c != '\0') && site.validName(r.name)
  }

  predicate ValidPolicy(site: Site, p: Policy) {
    && (p.devices.Some? ==> 0 <= p.devices.value <= 100)
    && (p.quota.Some? ==> p.quota.value.bytes >= 0)
    && (p.rate.Some? ==> ValidRate(p.rate.value.up) && ValidRate(p.rate.value.down))
    && (p.expiry.Some? ==> p.expiry.value == "" || site.validDate(p.expiry.value))
    && (p.routes.Some? ==>
      && 1 <= |p.routes.value| <= 512
      && (forall i, j :: 0 <= i < j < |p.routes.value| ==> p.routes.value[i].outbound != p.routes.value[j].outbound)
      && (forall r :: r in p.routes.value ==> ValidRoute(site, r)))
  }

  predicate NameTaken(groups: seq<Group>, id: string, name: string) {
    exists i :: 0 <= i < |groups| && groups[i].id != id && Lower(groups[i].name) == Lower(name)
  }

  /** The group exists, policy and name are in order, and routes that are new can be selected. */
  predicate EditFits(site: Site, groups: seq<Group>, id: string, name: string, policy: Policy) {
    && ValidPolicy(site, policy) && FindGroup(groups, id).Some?
    && (policy.routes.Some? && FindGroup(groups, id).value.policy.routes != policy.routes ==> Selectable(site, policy.routes.value))
    && site.validName(name) && !NameTaken(groups, id, name)
  }

  /** A rate is valid if it comes to at most 32 bits of bytes per second. */
  lemma RateFits(mbps: int)
    ensures ValidRate(mbps) <==> mbps >= 0 && mbps * 125_000 < 0x1_0000_0000
  {
  }

  /** A policy is valid by its limits, its rates, its date and its routes, none of them twice. */
  lemma PolicyIsValid(site: Site, p: Policy)
    ensures ValidPolicy(site, p) <==>
            && (p.devices.None? || 0 <= p.devices.value < 101)
            && (p.quota.None? || p.quota.value.bytes > -1)
            && (p.rate.None? || (0 <= p.rate.value.up && p.rate.value.up * 125_000 < 0x1_0000_0000
                                 && 0 <= p.rate.value.down && p.rate.value.down * 125_000 < 0x1_0000_0000))
            && (p.expiry.None? || p.expiry.value == "" || site.validDate(p.expiry.value))
            && (p.routes.Some? ==>
                  && 0 < |p.routes.value| < 513
                  && (forall i, j :: 0 <= i < |p.routes.value| && 0 <= j < |p.routes.value| && i != j ==>
                        p.routes.value[i].outbound != p.routes.value[j].outbound)
                  && (forall r :: r in p.routes.value ==>
                        site.validName(r.name) && |r.outbound| < 257 && '\r' !in r.outbound && '\n' !in r.outbound && '\0' !in r.outbound))
  {
    hide ValidRate;
    if p.rate.Some? {
      RateFits(p.rate.value.up);
      RateFits(p.rate.value.down);
    }
  }

  /** An edit is accepted exactly for an existing group, a valid policy, new routes that can be selected, and a valid name no other group has in any writing. */
  lemma EditFitsExactly(site: Site, groups: seq<Group>, id: string, name: string, policy: Policy)
    ensures EditFits(site, groups, id, name, policy) <==>
            && FindGroup(groups, id).Some? && ValidPolicy(site, policy) && site.validName(name)
            && (policy.routes.None? || policy.routes == FindGroup(groups, id).value.policy.routes || Selectable(site, policy.routes.value))
            && (forall g :: g in groups && g.id != id ==> Lower(g.name) != Lower(name))
  {
    NameIsTaken(groups, id, name);
    hide NameTaken;
    hide ValidPolicy;
    hide Selectable;
    hide FindGroup;
  }

  lemma NameIsTaken(groups: seq<Group>, id: string, name: string)
    ensures NameTaken(groups, id, name) <==> exists g :: g in groups && g.id != id && Lower(g.name) == Lower(name)
  {
    hide Names.Lower;
    if exists g :: g in groups && g.id != id && Lower(g.name) == Lower(name) {
      var g :| g in groups && g.id != id && Lower(g.name) == Lower(name);
      var i :| 0 <= i < |groups| && groups[i] == g;
    }
  }

  /** The routes an edit sets again were selected before. */
  lemma ChangedIsApplicable(site: Site, groups: seq<Group>, u: User, former: Policy, policy: Policy)
    requires FindGroup(groups, u.group).Some? && FindGroup(groups, u.group).value.policy == policy
    requires policy.routes.Some? && former.routes != policy.routes ==> Selectable(site, policy.routes.value)
    ensures Applicable(site, groups, u, ChangedScopes(former, policy))
  {
    hide Selectable;
  }

  predicate Differs(p: Policy, q: Policy, scope: Scope) {
    match scope
    case DeviceScope => p.devices != q.devices
    case QuotaScope => p.quota != q.quota
    case RateScope => p.rate != q.rate
    case ExpiryScope => p.expiry != q.expiry
    case RouteScope => p.routes != q.routes
  }

  /** The first group of that identifier, replaced. */
  function Replace(groups: seq<Group>, g: Group): seq<Group> {
    if groups == [] then []
    else if groups[0].id == g.id then [g] + groups[1..]
    else [groups[0]] + Replace(groups[1..], g)
  }

  lemma {:induction false} ReplaceFound(groups: seq<Group>, g: Group)
    ensures FindGroup(groups, g.id).Some? ==> FindGroup(Replace(groups, g), g.id) == Some(g)
    ensures forall id :: id != g.id ==> FindGroup(Replace(groups, g), id) == FindGroup(groups, id)
  {
    if groups != [] && groups[0].id != g.id {
      ReplaceFound(groups[1..], g);
    }
  }

  lemma OtherGroup(site: Site, before: seq<Group>, after: seq<Group>, u: User, g: Group)
    requires after == Replace(before, g) && u.group != g.id
    ensures Settled(site, before, u) <==> Settled(site, after, u)
  {
    hide Diverges;
    ReplaceFound(before, g);
  }

  function ChangedScopes(p: Policy, q: Policy): set<Scope> {
    set scope | scope in ALL_SCOPES && Differs(p, q, scope)
  }

  /** Every difference that is not an exception is in a scope that is set again. */
  predicate ChangesCover(site: Site, u: User, p: Policy, scopes: set<Scope>) {
    forall scope: Scope :: Diverges(site, u, p, scope) && scope !in u.overrides ==> Reapplied(u, scopes, scope)
  }

  /** Only what changed needs applying to a member that agreed with the old policy. */
  lemma ChangedApplied(site: Site, before: seq<Group>, after: seq<Group>, was: User, now: User, former: Policy, policy: Policy, changed: set<Scope>)
    requires FindGroup(before, was.group).Some? && FindGroup(before, was.group).value.policy == former
    requires FindGroup(after, was.group).Some? && FindGroup(after, was.group).value.policy == policy
    requires changed == ChangedScopes(former, policy) && Applied(site, was, now, policy, changed)
    ensures Settled(site, after, now) <==> ChangesCover(site, was, former, changed)
    ensures Settled(site, before, was) ==> Settled(site, after, now)
  {
    hide Diverges;
    EveryScope();
    forall scope: Scope | scope !in changed
      ensures Diverges(site, was, former, scope) <==> Diverges(site, was, policy, scope)
    {
      SameDivergence(site, was, former, policy, scope);
    }
  }

  lemma SameDivergence(site: Site, u: User, p: Policy, q: Policy, scope: Scope)
    requires !Differs(p, q, scope)
    ensures Diverges(site, u, p, scope) <==> Diverges(site, u, q, scope)
  {
  }

  // ------------------------------------------------------------------------------------------
  // Logins stay unique
  // ------------------------------------------------------------------------------------------

  predicate DistinctLogins(nodes: seq<Node>) {
    forall i, j :: 0 <= i < j < |nodes| ==> nodes[i].auth != nodes[j].auth
  }

  lemma {:induction false} KeptLogins(site: Site, nodes: seq<Node>, device: string, keys: set<string>)
    requires DistinctLogins(nodes)
    ensures DistinctLogins(Kept(site, nodes, device, keys))
  {
    if nodes != [] {
      var last := |nodes| - 1;
      KeptLogins(site, nodes[..last], device, keys);
      forall n | n in Kept(site, nodes[..last], device, keys)
        ensures n.auth != nodes[last].auth
      {
        KeptIsPart(site, nodes[..last], device, keys, n);
        var i :| 0 <= i < last && nodes[..last][i] == n;
      }
    }
  }

  /** An assignment keeps the logins of a member distinct, and takes none from anybody else. */
  lemma AssignedLoginsDistinct(site: Site, before: seq<Node>, after: seq<Node>, device: string, keys: set<string>, logins: set<string>, uuids: set<nat>)
    requires Assigned(site, before, after, device, keys, logins, uuids) && DistinctLogins(before)
    requires forall n :: n in before ==> n.auth in logins
    ensures DistinctLogins(after)
    ensures forall n :: n in after ==> n in before || n.auth !in logins
  {
    hide Outbounds;
    hide Names.Lower;
    var kept := Kept(site, before, device, keys);
    KeptLogins(site, before, device, keys);
    forall n | n in kept
      ensures n in before
    {
      KeptIsPart(site, before, device, keys, n);
    }
    forall i, j | 0 <= i < j < |after|
      ensures after[i].auth != after[j].auth
    {
      if j < |kept| {
        assert after[i] == kept[i] && after[j] == kept[j];
      } else if i < |kept| {
        assert after[i] == kept[i] && kept[i] in kept;
        assert after[j] == after[|kept|..][j - |kept|] && after[j] in after[|kept|..];
      } else {
        assert after[i] == after[|kept|..][i - |kept|] && after[j] == after[|kept|..][j - |kept|];
      }
    }
    forall n | n in after
      ensures n in before || n.auth !in logins
    {
      assert after == kept + after[|kept|..];
    }
  }
}
