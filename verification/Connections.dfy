/**
 The gateway's connection manager: connections spread over 32 locked shards,
 each indexed by connection and by user, and the replacement of a device's
 older sockets when it authenticates again.
 */
module Connections {
  import opened Domain

  /** An authenticated socket. Its user and device are set once, when it authenticates. */
  datatype Connection = Connection(id: string, user: UserId, device: string)

  datatype Shard = Shard(conns: map<string, Connection>, users: map<UserId, set<string>>)

  const SHARD_COUNT := 32

  /** Exclusive or, bit by bit. */
  function Xor(a: nat, b: nat): nat {
    if a == 0 then b
    else if b == 0 then a
    else (a % 2 + b % 2) % 2 + 2 * Xor(a / 2, b / 2)
  }

  function Bit(n: nat, i: nat): nat
    decreases i
  {
    if i == 0 then n % 2 else Bit(n / 2, i - 1)
  }

  lemma {:induction false} ZeroBits(i: nat)
    ensures Bit(0, i) == 0
  {
    if i > 0 {
      ZeroBits(i - 1);
    }
  }

  /** The bits make up the number. */
  lemma {:induction false} SameBits(a: nat, b: nat)
    requires forall i: nat :: Bit(a, i) == Bit(b, i)
    ensures a == b
    decreases a + b
  {
    assert Bit(a, 0) == Bit(b, 0);
    if a + b > 0 {
      forall i: nat ensures Bit(a / 2, i) == Bit(b / 2, i) {
        assert Bit(a, i + 1) == Bit(b, i + 1);
      }
      SameBits(a / 2, b / 2);
    }
  }

  lemma {:induction false} XorIsBitwise(a: nat, b: nat, i: nat)
    ensures Bit(Xor(a, b), i) == if Bit(a, i) == Bit(b, i) then 0 else 1
    ensures Bit(a, i) <= 1 && Bit(b, i) <= 1
    decreases i
  {
    ZeroBits(i);
    if i > 0 {
      XorIsBitwise(a / 2, b / 2, i - 1);
      assert a > 0 && b > 0 ==> Xor(a, b) / 2 == Xor(a / 2, b / 2);
    }
  }

  /** One byte of FNV-1a in 32-bit arithmetic. */
  function FnvByte(h: nat, byte: nat): nat {
    Xor(h, byte) * 16777619 % 0x1_0000_0000
  }

  /** FNV-1a over a sequence of bytes. */
  function Fnv(bytes: seq<nat>): nat {
    if bytes == [] then 2166136261 else FnvByte(Fnv(bytes[..|bytes| - 1]), bytes[|bytes| - 1])
  }

  /** Byte i of a number, counted from the lowest. */
  function Byte(number: nat, i: nat): nat
    decreases i
  {
    if i == 0 then number % 256 else Byte(number / 256, i - 1)
  }

  function Bytes(number: nat, count: nat): (bytes: seq<nat>)
    ensures |bytes| == count && forall i :: 0 <= i < count ==> bytes[i] == Byte(number, i)
  {
    seq(count, i requires 0 <= i < count => Byte(number, i))
  }

  method Hash(number: nat, count: nat) returns (h: nat)
    ensures h == Fnv(Bytes(number, count))
  {
    h := 2166136261;
    var uid := number;
    for k := 0 to count
      invariant h == Fnv(Bytes(number, k))
      invariant forall i: nat :: Byte(uid, i) == Byte(number, k + i)
    {
      assert Byte(uid, 0) == Byte(number, k + 0);
      assert Bytes(number, k + 1)[..k] == Bytes(number, k);
      h := Xor(h, uid % 256) * 16777619 % 0x1_0000_0000;
      forall i: nat ensures Byte(uid / 256, i) == Byte(number, k + 1 + i) {
        assert Byte(uid, i + 1) == Byte(number, k + (i + 1));
      }
      uid := uid / 256;
    }
  }

  /** A 64-bit user id read as unsigned, hashed over its eight bytes. */
  function ShardOf(user: UserId): (i: nat)
    ensures i < SHARD_COUNT
  {
    if user == 0 then 0 else Fnv(Bytes(user % 0x1_0000_0000_0000_0000, 8)) % SHARD_COUNT
  }

  method GetShard(user: UserId) returns (i: nat)
    ensures i == ShardOf(user) < 32
  {
    if user == 0 {
      return 0;
    }
    var h := Hash(user % 0x1_0000_0000_0000_0000, 8);
    i := h % 32;
  }

  ghost predicate Indexed(shard: Shard, c: Connection) {
    c.id in shard.conns && shard.conns[c.id] == c && c.user in shard.users && c.id in shard.users[c.user]
  }

  /** The shard holds exactly these connections, and its user index agrees with its connection index. */
  ghost predicate Holds(shard: Shard, mine: set<Connection>) {
    && (forall id :: id in shard.conns ==> shard.conns[id].id == id && shard.conns[id] in mine)
    && (forall u :: u in shard.users ==> shard.users[u] != {})
    && (forall u, id :: u in shard.users && id in shard.users[u] ==> id in shard.conns && shard.conns[id].user == u)
    && (forall c :: c in mine ==> Indexed(shard, c))
  }

  /** The connections whose user is placed in shard i. */
  ghost function InShard(all: set<Connection>, i: nat): set<Connection> {
    set c | c in all && ShardOf(c.user) == i
  }

  ghost predicate UniqueIds(all: set<Connection>) {
    forall c, d :: c in all && d in all && c.id == d.id ==> c == d
  }

  /** Older connections of the same user and device. */
  predicate Replaces(c: Connection, d: Connection) {
    d.user == c.user && d.device == c.device && d.id != c.id
  }

  ghost predicate NoRepeats(s: seq<Connection>) {
    forall i, j :: 0 <= i < j < |s| ==> s[i] != s[j]
  }

  ghost function Users(conns: set<Connection>): set<UserId> {
    set c | c in conns :: c.user
  }

  ghost function Accepting(conns: seq<Connection>, accepts: set<Connection>): set<Connection> {
    set c | c in conns && c in accepts
  }

  lemma OneMore(conns: seq<Connection>, k: nat, accepts: set<Connection>)
    requires k < |conns| && NoRepeats(conns)
    ensures |Accepting(conns[..k + 1], accepts)| ==
              |Accepting(conns[..k], accepts)| + if conns[k] in accepts then 1 else 0
  {
    assert conns[..k + 1] == conns[..k] + [conns[k]];
    assert Accepting(conns[..k + 1], accepts) ==
           Accepting(conns[..k], accepts) + if conns[k] in accepts then {conns[k]} else {};
  }

  /** The connections in the first i shards. */
  ghost function Below(all: set<Connection>, i: nat): set<Connection> {
    set c | c in all && ShardOf(c.user) < i
  }

  lemma NextShard(all: set<Connection>, i: nat)
    ensures |Below(all, i + 1)| == |Below(all, i)| + |InShard(all, i)|
  {
    assert Below(all, i + 1) == Below(all, i) + InShard(all, i);
  }

  lemma OneShardChanges(all: set<Connection>, c: Connection)
    ensures forall j: nat :: j != ShardOf(c.user) ==>
              InShard(all + {c}, j) == InShard(all, j) && InShard(all - {c}, j) == InShard(all, j)
    ensures var i := ShardOf(c.user);
      InShard(all + {c}, i) == InShard(all, i) + {c} && InShard(all - {c}, i) == InShard(all, i) - {c}
  {
  }

  lemma UsersOfShard(shard: Shard, mine: set<Connection>)
    requires Holds(shard, mine)
    ensures shard.users.Keys == Users(mine)
  {
    forall u | u in shard.users
      ensures u in Users(mine)
    {
      var id :| id in shard.users[u];
      assert shard.conns[id].user == u;
    }
  }

  lemma Placed(shard: Shard, bigger: Shard, mine: set<Connection>, c: Connection)
    requires Holds(shard, mine) && UniqueIds(mine + {c})
    requires bigger == Shard(shard.conns[c.id := c],
                             shard.users[c.user := (if c.user in shard.users then shard.users[c.user] else {}) + {c.id}])
    ensures Holds(bigger, mine + {c})
  {
    forall d | d in mine ensures Indexed(bigger, d) {
      assert Indexed(shard, d);
    }
    forall u, id | u in bigger.users && id in bigger.users[u]
      ensures id in bigger.conns && bigger.conns[id].user == u
    {
      if u in shard.users && id in shard.users[u] {
        assert id == c.id ==> shard.conns[id] == c;
      }
    }
  }

  lemma Taken(shard: Shard, smaller: Shard, mine: set<Connection>, c: Connection)
    requires Holds(shard, mine) && UniqueIds(mine + {c})
    requires forall d :: d in mine ==> d.user != 0
    requires smaller.conns == shard.conns - {c.id}
    requires smaller.users ==
               if c.user == 0 || c.user !in shard.users then shard.users
               else if shard.users[c.user] - {c.id} == {} then shard.users - {c.user}
               else shard.users[c.user := shard.users[c.user] - {c.id}]
    ensures Holds(smaller, mine - {c})
  {
    forall d | d in mine - {c}
      ensures Indexed(smaller, d)
    {
      assert Indexed(shard, d);
      assert d.id != c.id;
    }
    forall u, id | u in smaller.users && id in smaller.users[u]
      ensures id in smaller.conns && smaller.conns[id].user == u
    {
      assert id in shard.users[u] && shard.conns[id].user == u;
    }
  }

  method OfUser(shard: Shard, ghost mine: set<Connection>, user: UserId) returns (result: seq<Connection>)
    requires Holds(shard, mine)
    ensures NoRepeats(result)
    ensures forall x :: x in result <==> x in mine && x.user == user
  {
    result := [];
    if user !in shard.users {
      return;
    }
    var rest := shard.users[user];
    while rest != {}
      invariant rest <= shard.users[user] && NoRepeats(result)
      invariant forall x :: x in result <==> x.id in shard.users[user] - rest && x == shard.conns[x.id]
      decreases rest
    {
      var id :| id in rest;
      assert shard.conns[id].id == id;
      result := result + [shard.conns[id]];
      rest := rest - {id};
    }
    assert forall x :: x in mine ==> Indexed(shard, x);
  }

  method Older(shard: Shard, ghost mine: set<Connection>, c: Connection) returns (replaced: seq<Connection>)
    requires Holds(shard, mine)
    ensures NoRepeats(replaced)
    ensures forall x :: x in replaced <==> x in mine && Replaces(c, x)
  {
    replaced := [];
    var conns := OfUser(shard, mine, c.user);
    for k := 0 to |conns|
      invariant NoRepeats(replaced)
      invariant forall x :: x in replaced <==> x in conns[..k] && Replaces(c, x)
    {
      assert conns[..k + 1] == conns[..k] + [conns[k]];
      assert conns[k] !in conns[..k];
      if conns[k].device == c.device && conns[k].id != c.id {
        replaced := replaced + [conns[k]];
      }
    }
    assert conns[..|conns|] == conns;
  }

  /** A user's connections are all in one shard, so no user is counted twice. */
  lemma NextShardUsers(all: set<Connection>, i: nat)
    ensures |Users(Below(all, i + 1))| == |Users(Below(all, i))| + |Users(InShard(all, i))|
  {
    var low, here := Users(Below(all, i)), Users(InShard(all, i));
    assert forall u :: u in low ==> ShardOf(u) < i;
    assert forall u :: u in here ==> ShardOf(u) == i;
    assert Below(all, i + 1) == Below(all, i) + InShard(all, i);
    assert Users(Below(all, i + 1)) == low + here;
  }

  /** Connections told apart by their ids are as many as the ids. */
  lemma {:induction false} SameSize(conns: set<Connection>, ids: set<string>)
    requires UniqueIds(conns)
    requires forall c :: c in conns ==> c.id in ids
    requires forall id :: id in ids ==> exists c :: c in conns && c.id == id
    ensures |conns| == |ids|
    decreases conns
  {
    if conns == {} {
      assert ids == {};
    } else {
      var c :| c in conns;
      SameSize(conns - {c}, ids - {c.id});
    }
  }

  /** A shard's connection index is as large as its set of connections. */
  lemma ConnectionsOfShard(shard: Shard, mine: set<Connection>)
    requires Holds(shard, mine) && UniqueIds(mine)
    ensures |shard.conns| == |mine|
  {
    assert forall c :: c in mine ==> Indexed(shard, c);
    forall id | id in shard.conns ensures exists c :: c in mine && c.id == id {
      assert shard.conns[id] in mine && shard.conns[id].id == id;
    }
    SameSize(mine, shard.conns.Keys);
  }

  lemma AllBelow(all: set<Connection>)
    ensures Below(all, SHARD_COUNT) == all && Below(all, 0) == {}
  {
    forall c | c in all ensures c in Below(all, SHARD_COUNT) {
      assert ShardOf(c.user) < SHARD_COUNT;
    }
  }

  class Manager {
    const shards: array<Shard>
    /** All registered connections, whatever shard they are in. */
    ghost var all: set<Connection>

    ghost predicate Valid()
      reads this, shards
    {
      && shards.Length == SHARD_COUNT
      && UniqueIds(all)
      && (forall c :: c in all ==> c.user != 0)
      && forall i :: 0 <= i < SHARD_COUNT ==> Holds(shards[i], InShard(all, i))
    }

    constructor ()
      ensures Valid() && fresh(shards) && all == {}
    {
      shards := new Shard[SHARD_COUNT](_ => Shard(map[], map[]));
      all := {};
    }

    /** Connection ids are fresh identifiers, so two connections never share one. */
    method Add(c: Connection) returns (replaced: seq<Connection>)
      requires Valid() && UniqueIds(all + {c})
      modifies this, shards
      ensures Valid()
      ensures all == if c.user == 0 then old(all) else old(all) + {c}
      ensures NoRepeats(replaced)
      ensures forall x :: x in replaced <==> x in old(all) && c.user != 0 && Replaces(c, x)
    {
      replaced := [];
      if c.user == 0 {
        return;
      }
      var i := GetShard(c.user);
      var shard := shards[i];
      ghost var mine := InShard(all, i);
      replaced := Older(shard, mine, c);
      var others := if c.user in shard.users then shard.users[c.user] else {};
      shards[i] := Shard(shard.conns[c.id := c], shard.users[c.user := others + {c.id}]);
      Placed(shard, shards[i], mine, c);
      OneShardChanges(all, c);
      all := all + {c};
    }

    method Remove(c: Connection)
      requires Valid() && UniqueIds(all + {c})
      modifies this, shards
      ensures Valid() && all == old(all) - {c}
    {
      var i := GetShard(c.user);
      var shard := shards[i];
      ghost var mine := InShard(all, i);
      var smaller := shard.(conns := shard.conns - {c.id});
      if c.user != 0 && c.user in shard.users {
        var left := shard.users[c.user] - {c.id};
        smaller := smaller.(users := if left == {} then shard.users - {c.user} else shard.users[c.user := left]);
      }
      shards[i] := smaller;
      Taken(shard, smaller, mine, c);
      OneShardChanges(all, c);
      all := all - {c};
    }

    method GetAll(user: UserId) returns (result: seq<Connection>)
      requires Valid()
      ensures NoRepeats(result)
      ensures forall x :: x in result <==> x in all && x.user == user
    {
      var i := GetShard(user);
      result := OfUser(shards[i], InShard(all, i), user);
    }

    /** `accepts` are the connections whose send succeeds. */
    method BroadcastToUserRaw(user: UserId, accepts: set<Connection>) returns (sent: nat)
      requires Valid()
      ensures sent == |set c | c in all && c.user == user && c in accepts|
    {
      var conns := GetAll(user);
      sent := 0;
      for k := 0 to |conns|
        invariant sent == |Accepting(conns[..k], accepts)|
      {
        OneMore(conns, k, accepts);
        if conns[k] in accepts {
          sent := sent + 1;
        }
      }
      assert conns[..|conns|] == conns;
      assert Accepting(conns, accepts) == set c | c in all && c.user == user && c in accepts;
    }

    method ShardSize(i: nat) returns (size: nat)
      requires Valid() && i < SHARD_COUNT
      ensures size == |InShard(all, i)|
    {
      ConnectionsOfShard(shards[i], InShard(all, i));
      size := |shards[i].conns|;
    }

    method Count() returns (count: nat)
      requires Valid()
      ensures count == |all|
    {
      AllBelow(all);
      count := 0;
      for i := 0 to SHARD_COUNT
        invariant count == |Below(all, i)|
      {
        NextShard(all, i);
        var size := ShardSize(i);
        count := count + size;
      }
    }

    method UserCount() returns (count: nat)
      requires Valid()
      ensures count == |Users(all)|
    {
      count := 0;
      for i := 0 to SHARD_COUNT
        invariant count == |Users(Below(all, i))|
      {
        UsersOfShard(shards[i], InShard(all, i));
        NextShardUsers(all, i);
        count := count + |shards[i].users|;
      }
      AllBelow(all);
    }
  }

  /** What the handler does with the manager, one locked operation at a time. */
  datatype Event = Authenticate(c: Connection) | Closed(c: Connection)

  /** `closing` are the sockets handed back for closing, `newest` the latest socket of each device. */
  datatype State = State(
    all: set<Connection>, closing: set<Connection>, seen: set<string>, newest: map<(UserId, string), Connection>)

  /** Sockets get fresh ids and authenticate once; one without a user is not registered. */
  function Step(s: State, e: Event): State {
    match e
    case Authenticate(c) =>
      if c.user == 0 || c.id in s.seen then s
      else State(s.all + {c}, s.closing + (set x | x in s.all && Replaces(c, x)), s.seen + {c.id},
                 s.newest[(c.user, c.device) := c])
    case Closed(c) =>
      s.(all := s.all - {c})
  }

  function Run(events: seq<Event>): State {
    if events == [] then State({}, {}, {}, map[])
    else Step(Run(events[..|events| - 1]), events[|events| - 1])
  }

  ghost predicate Inv(s: State) {
    && (forall c :: c in s.all + s.closing ==> c.id in s.seen)
    && (forall k :: k in s.newest ==> s.newest[k].id in s.seen)
    && (forall c :: c in s.all ==> (c.user, c.device) in s.newest && c.user != 0)
    && UniqueIds(s.all)
    && forall c :: c in s.all ==> (c in s.closing <==> s.newest[(c.user, c.device)] != c)
  }

  lemma StepKeepsInv(s: State, e: Event)
    requires Inv(s)
    ensures Inv(Step(s, e))
  {
    if e.Authenticate? && e.c.user != 0 && e.c.id !in s.seen {
      forall c | c in s.all
        ensures c in Step(s, e).closing <==> Step(s, e).newest[(c.user, c.device)] != c
      {
        assert c.id != e.c.id;
      }
    }
  }

  lemma {:induction false} RunKeepsInv(events: seq<Event>)
    ensures Inv(Run(events))
  {
    if events != [] {
      RunKeepsInv(events[..|events| - 1]);
      StepKeepsInv(Run(events[..|events| - 1]), events[|events| - 1]);
    }
  }

  ghost predicate AuthenticatedAt(events: seq<Event>, i: nat, c: Connection) {
    i < |events| && events[i] == Authenticate(c) && c.user != 0 && c.id !in Run(events[..i]).seen
  }

  ghost predicate ClosedAfter(events: seq<Event>, i: nat, c: Connection) {
    exists j :: i < j < |events| && events[j] == Closed(c)
  }

  lemma {:induction false} SeenSince(events: seq<Event>, i: nat, n: nat, c: Connection)
    requires AuthenticatedAt(events, i, c) && i < n <= |events|
    ensures c.id in Run(events[..n]).seen
    decreases n
  {
    assert events[..n][..n - 1] == events[..n - 1];
    if n - 1 > i {
      SeenSince(events, i, n - 1, c);
    }
  }

  /** A socket is registered exactly from its authentication until it is closed. */
  lemma {:induction false} RegisteredUntilClosed(events: seq<Event>, c: Connection)
    ensures c in Run(events).all <==> exists i: nat :: AuthenticatedAt(events, i, c) && !ClosedAfter(events, i, c)
  {
    if events != [] {
      var n := |events| - 1;
      var before := events[..n];
      RegisteredUntilClosed(before, c);
      forall i: nat | i < n
        ensures AuthenticatedAt(events, i, c) == AuthenticatedAt(before, i, c)
        ensures ClosedAfter(events, i, c) <==> ClosedAfter(before, i, c) || events[n] == Closed(c)
      {
        assert before[..i] == events[..i];
        if ClosedAfter(before, i, c) {
          var j :| i < j < n && before[j] == Closed(c);
          assert events[j] == Closed(c);
        }
        if j :| i < j < |events| && events[j] == Closed(c) {
          assert j < n ==> before[j] == Closed(c);
        }
      }
      assert AuthenticatedAt(events, n, c) ==> !ClosedAfter(events, n, c);
    }
  }

  /** The device of `c` authenticates again after event `i`. */
  ghost predicate ReplacedAfter(events: seq<Event>, i: nat, c: Connection) {
    exists j: nat, d :: i < j && AuthenticatedAt(events, j, d) && d.user == c.user && d.device == c.device
  }

  lemma OneEventMore(events: seq<Event>, i: nat, c: Connection)
    requires events != [] && i < |events| - 1
    ensures
      var n := |events| - 1;
      && AuthenticatedAt(events, i, c) == AuthenticatedAt(events[..n], i, c)
      && (ReplacedAfter(events, i, c) <==>
            || ReplacedAfter(events[..n], i, c)
            || (events[n].Authenticate? && AuthenticatedAt(events, n, events[n].c)
                && events[n].c.user == c.user && events[n].c.device == c.device))
  {
    var n := |events| - 1;
    var before := events[..n];
    forall j: nat, d | j < n ensures AuthenticatedAt(events, j, d) == AuthenticatedAt(before, j, d) {
      assert before[..j] == events[..j];
    }
    if j: nat, d :| i < j && AuthenticatedAt(before, j, d) && d.user == c.user && d.device == c.device {
      assert AuthenticatedAt(events, j, d);
    }
    if j: nat, d :| i < j && AuthenticatedAt(events, j, d) && d.user == c.user && d.device == c.device {
      assert j < n ==> AuthenticatedAt(before, j, d);
    }
  }

  /** The newest socket of a device is the one that authenticated last. */
  lemma {:induction false} NewestIsLast(events: seq<Event>, c: Connection)
    ensures (c.user, c.device) in Run(events).newest && Run(events).newest[(c.user, c.device)] == c <==>
              exists i: nat :: AuthenticatedAt(events, i, c) && !ReplacedAfter(events, i, c)
  {
    if events != [] {
      var n := |events| - 1;
      NewestIsLast(events[..n], c);
      forall i: nat | i < n
        ensures AuthenticatedAt(events, i, c) == AuthenticatedAt(events[..n], i, c)
        ensures ReplacedAfter(events, i, c) <==>
                  || ReplacedAfter(events[..n], i, c)
                  || (events[n].Authenticate? && AuthenticatedAt(events, n, events[n].c)
                      && events[n].c.user == c.user && events[n].c.device == c.device)
      {
        OneEventMore(events, i, c);
      }
      assert AuthenticatedAt(events, n, c) ==> !ReplacedAfter(events, n, c);
    }
  }

  lemma AuthenticatesOnce(events: seq<Event>, i: nat, j: nat, c: Connection)
    requires AuthenticatedAt(events, i, c) && AuthenticatedAt(events, j, c)
    ensures i == j
  {
    if i < j {
      SeenSince(events, i, j, c);
    } else if j < i {
      SeenSince(events, j, i, c);
    }
  }

  /**
   After any run, a registered socket is being closed exactly if its device has
   authenticated again since; so one socket a device stays, and it is the newest.
   */
  lemma OneSocketPerDevice(events: seq<Event>, c: Connection, d: Connection)
    requires c in Run(events).all && d in Run(events).all
    ensures c in Run(events).closing <==> exists i: nat :: AuthenticatedAt(events, i, c) && ReplacedAfter(events, i, c)
    ensures (c.user, c.device) in Run(events).newest
    ensures c in Run(events).closing <==> Run(events).newest[(c.user, c.device)] != c
    ensures c.user == d.user && c.device == d.device && c != d ==> c in Run(events).closing || d in Run(events).closing
  {
    RunKeepsInv(events);
    NewestIsLast(events, c);
    RegisteredUntilClosed(events, c);
    var i: nat :| AuthenticatedAt(events, i, c);
    forall j: nat | AuthenticatedAt(events, j, c) ensures i == j {
      AuthenticatesOnce(events, i, j, c);
    }
  }
}
