/**
 Finding users' gateways and sending receipts there: the router with its
 local session cache, and the routed receipt push.
 */
module Routing {
  import opened Domain
  import opened Sessions

  // ------------------------------------------------------------------ the router

  datatype CacheEntry = CacheEntry(nodes: seq<string>, expires: int)

  /** Session hashes in Redis: device to route, per user. */
  type SessionIndex = map<UserId, map<string, string>>

  type Routes = map<string, seq<UserId>>

  predicate Listed(routes: Routes, node: string, u: UserId) {
    node in routes && u in routes[node]
  }

  function DevicesOf(redis: SessionIndex, u: UserId): map<string, string> {
    if u in redis then redis[u] else map[]
  }

  function Appended(routes: Routes, node: string, u: UserId): Routes {
    routes[node := (if node in routes then routes[node] else []) + [u]]
  }

  /** Some device of the user sits on a node that is alive. */
  ghost predicate Reachable(redis: SessionIndex, alive: set<string>, u: UserId) {
    exists n :: n in alive && SomeDeviceOn(DevicesOf(redis, u), n)
  }

  function CacheEntryOf(cache: map<UserId, CacheEntry>, u: UserId): Option<CacheEntry> {
    if u in cache then Some(cache[u]) else None
  }

  /** The cache holds a fresh entry with an alive node for the user. */
  ghost predicate Usable(cache: map<UserId, CacheEntry>, u: UserId, alive: set<string>, now: int) {
    u in cache && now <= cache[u].expires && exists n :: n in cache[u].nodes && n in alive
  }

  /** The cache holds what Redis said, for one more lifetime; no alive device at all is remembered too. */
  ghost predicate Refreshed(cache: map<UserId, CacheEntry>, u: UserId, alive: set<string>, redis: SessionIndex, until: int) {
    u in cache && cache[u].expires == until &&
    forall n :: n in cache[u].nodes <==> n in alive && SomeDeviceOn(DevicesOf(redis, u), n)
  }

  /** The entries of these users hold what Redis says, all others are as before. */
  ghost predicate Renewed(before: map<UserId, CacheEntry>, after: map<UserId, CacheEntry>, users: set<UserId>,
                          alive: set<string>, redis: SessionIndex, until: int)
  {
    && (forall u :: u in users ==> Refreshed(after, u, alive, redis, until))
    && (forall u :: u !in users ==> CacheEntryOf(after, u) == CacheEntryOf(before, u))
  }

  /** Where a user is looked for: at the alive nodes of a usable cache entry, else at those Redis names. */
  ghost predicate Routed(cache: map<UserId, CacheEntry>, redis: SessionIndex, alive: set<string>, now: int,
                         n: string, u: UserId)
  {
    n in alive &&
    if Usable(cache, u, alive, now) then n in cache[u].nodes else SomeDeviceOn(DevicesOf(redis, u), n)
  }

  /** A user routed nowhere has no usable entry and, by Redis, no device on an alive node: the cache hides nobody. */
  lemma CacheHidesNobody(cache: map<UserId, CacheEntry>, redis: SessionIndex, alive: set<string>, now: int, u: UserId)
    ensures (forall n :: !Routed(cache, redis, alive, now, n, u)) <==>
              !Usable(cache, u, alive, now) && !Reachable(redis, alive, u)
  {
    if Usable(cache, u, alive, now) {
      var n :| n in cache[u].nodes && n in alive;
      assert Routed(cache, redis, alive, now, n, u);
    } else if Reachable(redis, alive, u) {
      var n :| n in alive && SomeDeviceOn(DevicesOf(redis, u), n);
      assert Routed(cache, redis, alive, now, n, u);
    }
  }

  lemma AppendedLists(routes: Routes, node: string, u: UserId)
    ensures forall n, v :: Listed(Appended(routes, node, u), n, v) <==> Listed(routes, n, v) || (n == node && v == u)
  {
  }

  method AddCached(routes: Routes, nodes: seq<string>, alive: set<string>, u: UserId)
    returns (routes': Routes, added: bool)
    ensures added <==> exists n :: n in nodes && n in alive
    ensures forall n, v :: Listed(routes', n, v) <==> Listed(routes, n, v) || (v == u && n in nodes && n in alive)
  {
    routes', added := routes, false;
    for i := 0 to |nodes|
      invariant added <==> exists n :: n in nodes[..i] && n in alive
      invariant forall n, v :: Listed(routes', n, v) <==>
                  Listed(routes, n, v) || (v == u && n in nodes[..i] && n in alive)
    {
      assert nodes[..i + 1] == nodes[..i] + [nodes[i]];
      if nodes[i] in alive {
        AppendedLists(routes', nodes[i], u);
        routes' := Appended(routes', nodes[i], u);
        added := true;
      }
    }
    assert nodes[..|nodes|] == nodes;
  }

  /** A device outside `rest` is routed to the node. */
  ghost predicate Seen(devices: map<string, string>, rest: set<string>, n: string) {
    exists d :: d in devices && d !in rest && NodeOf(devices[d]) == n
  }

  lemma SeenStep(devices: map<string, string>, rest: set<string>, d: string)
    requires d in devices && d in rest
    ensures forall n :: Seen(devices, rest - {d}, n) <==> n == NodeOf(devices[d]) || Seen(devices, rest, n)
  {
    forall n ensures Seen(devices, rest - {d}, n) <==> n == NodeOf(devices[d]) || Seen(devices, rest, n) {
      if e :| e in devices && e !in rest && NodeOf(devices[e]) == n {
        assert e !in rest - {d};
      }
      assert d !in rest - {d};
    }
  }

  /** Routes a user by the device hash, each alive node once. */
  method AddDevices(routes: Routes, devices: map<string, string>, alive: set<string>, u: UserId)
    returns (routes': Routes, nodes: seq<string>)
    ensures forall n :: n in nodes <==> n in alive && SomeDeviceOn(devices, n)
    ensures forall n, v :: Listed(routes', n, v) <==>
              Listed(routes, n, v) || (v == u && n in alive && SomeDeviceOn(devices, n))
  {
    routes', nodes := routes, [];
    var rest := devices.Keys;
    while rest != {}
      invariant rest <= devices.Keys
      invariant forall n :: n in nodes <==> n in alive && Seen(devices, rest, n)
      invariant forall n, v :: Listed(routes', n, v) <==> Listed(routes, n, v) || (v == u && n in nodes)
      decreases rest
    {
      var d :| d in rest;
      var n := NodeOf(devices[d]);
      SeenStep(devices, rest, d);
      if n in alive && n !in nodes {
        AppendedLists(routes', n, u);
        routes' := Appended(routes', n, u);
        nodes := nodes + [n];
      }
      rest := rest - {d};
    }
    assert forall n :: Seen(devices, {}, n) <==> SomeDeviceOn(devices, n);
  }

  class GatewayRouter {
    const ttl: nat
    var cache: map<UserId, CacheEntry>

    constructor (ttl: nat)
      ensures cache == map[] && this.ttl == ttl
    {
      this.ttl := ttl;
      cache := map[];
    }

    /** After a session change event the user is looked for by Redis alone, and nobody else's entry is lost. */
    method Invalidate(u: UserId)
      modifies this
      ensures forall redis, alive, now, n :: Routed(cache, redis, alive, now, n, u) <==>
                n in alive && SomeDeviceOn(DevicesOf(redis, u), n)
      ensures forall v :: v != u ==> CacheEntryOf(cache, v) == CacheEntryOf(old(cache), v)
    {
      cache := cache - {u};
    }

    method GetCached(u: UserId, now: int) returns (nodes: Option<seq<string>>)
      modifies this
      ensures nodes.Some? <==> u in old(cache) && now <= old(cache)[u].expires
      ensures nodes.Some? ==> nodes.value == old(cache)[u].nodes
      ensures cache == if u in old(cache) && now > old(cache)[u].expires then old(cache) - {u} else old(cache)
    {
      if u !in cache {
        return None;
      }
      if now > cache[u].expires {
        cache := cache - {u};
        return None;
      }
      nodes := Some(cache[u].nodes);
    }

    /** The cache pass: users with an alive cached node are routed, the others are left for Redis. */
    method FromCache(users: seq<UserId>, alive: set<string>, now: int)
      returns (routes: Routes, missing: seq<UserId>)
      modifies this
      ensures forall u :: u in missing <==> u in users && !Usable(old(cache), u, alive, now)
      ensures forall n, u :: Listed(routes, n, u) <==>
                u in users && Usable(old(cache), u, alive, now) && n in alive && n in old(cache)[u].nodes
      ensures forall u :: u !in missing ==> CacheEntryOf(cache, u) == CacheEntryOf(old(cache), u)
    {
      routes, missing := map[], [];
      for i := 0 to |users|
        invariant forall u :: u in missing <==> u in users[..i] && !Usable(old(cache), u, alive, now)
        invariant forall n, u :: Listed(routes, n, u) <==>
                    u in users[..i] && Usable(old(cache), u, alive, now) && n in alive && n in old(cache)[u].nodes
        invariant forall u :: CacheEntryOf(cache, u) == CacheEntryOf(old(cache), u)
                              || (u in missing && u !in cache && !Usable(old(cache), u, alive, now))
      {
        var u := users[i];
        assert users[..i + 1] == users[..i] + [u];
        assert CacheEntryOf(cache, u) == CacheEntryOf(old(cache), u) || u !in cache;
        var nodes := GetCached(u, now);
        var added := false;
        if nodes.Some? {
          assert nodes.value == old(cache)[u].nodes;
          routes, added := AddCached(routes, nodes.value, alive, u);
        }
        assert added <==> Usable(old(cache), u, alive, now);
        if !added {
          missing := missing + [u];
        }
      }
      assert users[..|users|] == users;
    }

    /**
     ResolveUserNodesWithNodes. `read` are the users looked up in Redis by
     this call: those without a fresh cache entry that names an alive node.
     Their entries are renewed; all others stay.
     */
    method Resolve(users: seq<UserId>, alive: set<string>, redis: SessionIndex, now: int)
      returns (routes: Routes, read: set<UserId>)
      modifies this
      ensures forall u :: u in read <==> u in users && !Usable(old(cache), u, alive, now)
      ensures forall n, u :: Listed(routes, n, u) <==> u in users && Routed(old(cache), redis, alive, now, n, u)
      ensures Renewed(old(cache), cache, read, alive, redis, now + ttl)
    {
      var missing: seq<UserId>;
      routes, missing := FromCache(users, alive, now);
      read := set u | u in missing;
      ghost var cached := routes;
      for i := 0 to |missing|
        invariant forall n, u :: Listed(routes, n, u) <==>
                    Listed(cached, n, u) || (u in missing[..i] && n in alive && SomeDeviceOn(DevicesOf(redis, u), n))
        invariant forall u :: u in missing[..i] ==> Refreshed(cache, u, alive, redis, now + ttl)
        invariant forall u :: u !in missing ==> CacheEntryOf(cache, u) == CacheEntryOf(old(cache), u)
      {
        var u := missing[i];
        var nodes: seq<string>;
        routes, nodes := AddDevices(routes, DevicesOf(redis, u), alive, u);
        cache := cache[u := CacheEntry(nodes, now + ttl)];
        assert missing[..i + 1] == missing[..i] + [u];
      }
      assert missing[..|missing|] == missing;
    }
  }

  // ------------------------------------------------------------------ routed receipts

  /** A send receipt for a user, one item of a batch. */
  datatype Receipt = Receipt(user: UserId, id: nat)

  /** How many sends of the user's receipts each gateway that answers gets through. */
  type Reach = map<string, map<UserId, nat>>

  function Delivered(reach: Reach, node: string, u: UserId): nat {
    if node in reach && u in reach[node] then reach[node][u] else 0
  }

  /** The items addressed to some of the users. */
  method Gather(items: seq<Receipt>, users: seq<UserId>) returns (mine: seq<Receipt>)
    ensures forall x :: x in mine <==> x in items && x.user in users
  {
    mine := [];
    for i := 0 to |items|
      invariant forall x :: x in mine <==> x in items[..i] && x.user in users
    {
      assert items[..i + 1] == items[..i] + [items[i]];
      if items[i].user in users {
        mine := mine + [items[i]];
      }
    }
    assert items[..|items|] == items;
  }

  /** The gateway side: all items of a user fail together, when nothing reached any device. */
  method GatewayPush(items: seq<Receipt>, counts: map<UserId, nat>) returns (failed: seq<Receipt>)
    ensures forall x :: x in failed <==> x in items && (x.user !in counts || counts[x.user] == 0)
  {
    failed := [];
    var users := set x | x in items :: x.user;
    ghost var all := users;
    while users != {}
      invariant users <= all
      invariant forall x :: x in failed <==>
                  x in items && x.user !in users && (x.user !in counts || counts[x.user] == 0)
      decreases users
    {
      var u :| u in users;
      if u !in counts || counts[u] == 0 {
        var mine := Gather(items, [u]);
        failed := failed + mine;
      }
      users := users - {u};
    }
  }

  /** The gateways and their gRPC addresses, the sessions in Redis, what each gateway gets through, and the time. */
  datatype World = World(addrs: map<string, string>, redis: SessionIndex, reach: Reach, now: int)

  /** The user is routed to the node and the node has a gRPC address. */
  ghost predicate Hosts(cache: map<UserId, CacheEntry>, w: World, n: string, u: UserId) {
    Routed(cache, w.redis, w.addrs.Keys, w.now, n, u) && w.addrs[n] != ""
  }

  /** Exactly when an item counts as failed: nowhere to send it, or some gateway of the user got nothing through. */
  ghost predicate Fails(cache: map<UserId, CacheEntry>, w: World, u: UserId) {
    || !(exists n :: Hosts(cache, w, n, u))
    || (exists n :: Hosts(cache, w, n, u) && Delivered(w.reach, n, u) == 0)
  }

  /** The users of these items that have to be read from Redis. */
  ghost function Unknown(cache: map<UserId, CacheEntry>, items: seq<Receipt>, w: World): set<UserId> {
    set x | x in items && !Usable(cache, x.user, w.addrs.Keys, w.now) :: x.user
  }

  /** These items were given to exactly the gateways that host their users. */
  ghost predicate SentToHosts(cache: map<UserId, CacheEntry>, w: World, items: seq<Receipt>, sent: map<string, seq<Receipt>>) {
    forall n, x :: n in sent && x in sent[n] <==> x in items && Hosts(cache, w, n, x.user)
  }

  lemma ReadAreUnknown(cache: map<UserId, CacheEntry>, w: World, items: seq<Receipt>, users: seq<UserId>, read: set<UserId>)
    requires forall u :: u in users <==> exists x :: x in items && x.user == u
    requires forall u :: u in read <==> u in users && !Usable(cache, u, w.addrs.Keys, w.now)
    ensures read == Unknown(cache, items, w)
  {
    forall u | u in read ensures u in Unknown(cache, items, w) {
      var x :| x in items && x.user == u;
    }
  }

  /** The node is in the routing table with the user and has an address. */
  predicate Serves(routes: Routes, w: World, n: string, u: UserId) {
    Listed(routes, n, u) && n in w.addrs && w.addrs[n] != ""
  }

  lemma ItemsAreRouted(cache: map<UserId, CacheEntry>, w: World, items: seq<Receipt>, users: seq<UserId>, routes: Routes)
    requires forall u :: u in users <==> exists x :: x in items && x.user == u
    requires forall n, u :: Listed(routes, n, u) <==> u in users && Routed(cache, w.redis, w.addrs.Keys, w.now, n, u)
    ensures forall n, x :: x in items ==> (Serves(routes, w, n, x.user) <==> Hosts(cache, w, n, x.user))
  {
  }

  method Online(w: World, routes: Routes) returns (online: set<UserId>)
    ensures forall u :: u in online <==> exists n :: Serves(routes, w, n, u)
  {
    online := {};
    var rest := routes.Keys;
    while rest != {}
      invariant rest <= routes.Keys
      invariant forall u :: u in online <==> exists n :: n !in rest && Serves(routes, w, n, u)
      decreases rest
    {
      var n :| n in rest;
      if n in w.addrs && w.addrs[n] != "" {
        online := online + (set u | u in routes[n]);
      }
      rest := rest - {n};
    }
  }

  method Users(items: seq<Receipt>) returns (users: seq<UserId>)
    ensures forall u :: u in users <==> exists x :: x in items && x.user == u
  {
    users := [];
    for i := 0 to |items|
      invariant forall u :: u in users <==> exists x :: x in items[..i] && x.user == u
    {
      assert items[..i + 1] == items[..i] + [items[i]];
      if items[i].user !in users {
        users := users + [items[i].user];
      }
    }
    assert items[..|items|] == items;
  }

  method Offline(items: seq<Receipt>, online: set<UserId>) returns (failed: seq<Receipt>)
    ensures forall x :: x in failed <==> x in items && x.user !in online
  {
    failed := [];
    for i := 0 to |items|
      invariant forall x :: x in failed <==> x in items[..i] && x.user !in online
    {
      assert items[..i + 1] == items[..i] + [items[i]];
      if items[i].user !in online {
        failed := failed + [items[i]];
      }
    }
    assert items[..|items|] == items;
  }

  /** The pushes, node by node. */
  method PushToNodes(items: seq<Receipt>, w: World, routes: Routes)
    returns (failed: seq<Receipt>, sent: map<string, seq<Receipt>>)
    ensures forall x :: x in failed <==>
              x in items && exists n :: Serves(routes, w, n, x.user) && Delivered(w.reach, n, x.user) == 0
    ensures forall n, x :: n in sent && x in sent[n] <==> x in items && Serves(routes, w, n, x.user)
  {
    failed, sent := [], map[];
    var rest := routes.Keys;
    while rest != {}
      invariant rest <= routes.Keys
      invariant forall x :: x in failed <==>
                  x in items && exists n :: n !in rest && Serves(routes, w, n, x.user) && Delivered(w.reach, n, x.user) == 0
      invariant forall n :: n in sent ==> n !in rest
      invariant forall n, x :: n in sent && x in sent[n] <==> n !in rest && x in items && Serves(routes, w, n, x.user)
      decreases rest
    {
      var n :| n in rest;
      if n in w.addrs && w.addrs[n] != "" {
        var mine := Gather(items, routes[n]);
        sent := sent[n := mine];
        var refused := mine;
        if n in w.reach {
          refused := GatewayPush(mine, w.reach[n]);
        }
        assert forall x :: x in refused <==> x in items && Serves(routes, w, n, x.user) && Delivered(w.reach, n, x.user) == 0;
        failed := failed + refused;
      }
      rest := rest - {n};
    }
  }

  /**
   batchPushReceiptsToUsersWithRouting, with Redis up. Every item goes to
   exactly the gateways that host its user by the cache and Redis, and comes
   back as failed exactly if there is none or one of them got nothing through.
   */
  method PushReceipts(router: GatewayRouter, items: seq<Receipt>, w: World)
    returns (failed: seq<Receipt>, sent: map<string, seq<Receipt>>)
    modifies router
    ensures forall x :: x in failed <==> x in items && Fails(old(router.cache), w, x.user)
    ensures SentToHosts(old(router.cache), w, items, sent)
    ensures Renewed(old(router.cache), router.cache, Unknown(old(router.cache), items, w),
                    w.addrs.Keys, w.redis, w.now + router.ttl)
  {
    ghost var cache := router.cache;
    var users := Users(items);
    var routes, read := router.Resolve(users, w.addrs.Keys, w.redis, w.now);
    ReadAreUnknown(cache, w, items, users, read);
    ItemsAreRouted(cache, w, items, users, routes);
    failed, sent := PushToNodes(items, w, routes);
    var online := Online(w, routes);
    var offline := Offline(items, online);
    failed := failed + offline;
  }

  /** A receipt that got through somewhere is pushed again exactly if another gateway of its user got nothing through. */
  lemma GotThroughIsPushedAgainIff(cache: map<UserId, CacheEntry>, w: World, n: string, u: UserId)
    requires Hosts(cache, w, n, u) && Delivered(w.reach, n, u) > 0
    ensures Fails(cache, w, u) <==> exists m :: m != n && Hosts(cache, w, m, u) && Delivered(w.reach, m, u) == 0
  {
  }

  /** A user on two gateways: one gets the receipt through, the other one makes it be pushed again. */
  lemma TwoGatewaysPushTwice(u: UserId)
    ensures
      var devices := map["phone" := "a|1", "desk" := "b|2"];
      var w := World(map["a" := "host-a", "b" := "host-b"], map[u := devices], map["a" := map[u := 1]], 0);
      Hosts(map[], w, "a", u) && Delivered(w.reach, "a", u) > 0 && Fails(map[], w, u)
  {
    var devices := map["phone" := "a|1", "desk" := "b|2"];
    var w := World(map["a" := "host-a", "b" := "host-b"], map[u := devices], map["a" := map[u := 1]], 0);
    NodeOfValue("a", "1");
    NodeOfValue("b", "2");
    assert "a" + "|" + "1" == "a|1" && "b" + "|" + "2" == "b|2";
    assert NodeOf(devices["phone"]) == "a" && NodeOf(devices["desk"]) == "b";
    assert "a"[0] != "b"[0];
    assert Hosts(map[], w, "a", u) && Hosts(map[], w, "b", u);
    assert Delivered(w.reach, "b", u) == 0;
  }
}
