/**
 Authentication on one gateway: the new socket is registered locally, then in
 the session index, and only then are the device's older sockets closed, whose
 cleanup runs against both.
 */
module Handler {
  import opened Domain
  import C = Connections
  import S = Sessions

  /** How the gateway `node` registers a connection in the session index. */
  function SessionOf(node: string, c: C.Connection): S.Conn {
    S.Conn(node, c.id, c.device)
  }

  /** The device of the connection is routed to it. */
  predicate Routes(k: S.Keys, node: string, c: C.Connection) {
    c.device in k.devices && k.devices[c.device] == S.Value(SessionOf(node, c))
  }

  /** A device is routed to at most one connection of the gateway. */
  lemma OneRoute(k: S.Keys, node: string, c: C.Connection, d: C.Connection)
    requires S.NoBar(node) && Routes(k, node, c) && Routes(k, node, d) && c.device == d.device
    ensures c.id == d.id
  {
    S.ValueIsInjective(SessionOf(node, c), SessionOf(node, d));
  }

  /** OnConnectionClose: the socket leaves the manager and, if the route is still its own, the session index. */
  method Close(node: string, manager: C.Manager, sessions: S.SessionManager, c: C.Connection)
    requires manager.Valid() && C.UniqueIds(manager.all + {c})
    modifies manager, manager.shards, sessions
    ensures manager.Valid()
    ensures manager.all == old(manager.all) - {c}
    ensures sessions.keys == if c.user == 0 then old(sessions.keys) else S.Delete(old(sessions.keys), SessionOf(node, c))
    ensures
      var own := c.device in old(sessions.keys).devices && old(sessions.keys).devices[c.device] == node + "|" + c.id;
      sessions.keys.devices == old(sessions.keys).devices - if c.user != 0 && own then {c.device} else {}
  {
    if c.user != 0 {
      manager.Remove(c);
      var deleted := sessions.DelSession(SessionOf(node, c));
    }
  }

  /** What the cleanups of these connections leave: the route of one of them is deleted, any other stays. */
  ghost predicate Swept(node: string, before: S.Keys, after: S.Keys, closed: seq<C.Connection>) {
    && (forall x :: x in closed && Routes(before, node, x) ==> after == S.Delete(before, SessionOf(node, x)))
    && ((forall x :: x in closed ==> !Routes(before, node, x)) ==> after == before)
  }

  lemma SweepOne(node: string, before: S.Keys, after: S.Keys, closed: seq<C.Connection>, x: C.Connection)
    requires S.NoBar(node) && Swept(node, before, after, closed)
    requires forall y :: y in closed ==> y.device == x.device && y.id != x.id
    ensures Swept(node, before, S.Delete(after, SessionOf(node, x)), closed + [x])
  {
    var last := S.Delete(after, SessionOf(node, x));
    if y :| y in closed && Routes(before, node, y) {
      assert x.device !in after.devices && last == after;
      if Routes(before, node, x) {
        OneRoute(before, node, x, y);
      }
    } else {
      assert after == before;
      assert Routes(before, node, x) || last == before;
    }
    assert forall z :: z in closed + [x] <==> z in closed || z == x;
  }

  /** Closes the sockets that c replaces, one after the other. */
  method CloseAll(node: string, manager: C.Manager, sessions: S.SessionManager, c: C.Connection, replaced: seq<C.Connection>)
    requires manager.Valid() && S.NoBar(node) && C.NoRepeats(replaced)
    requires forall x :: x in replaced ==> x in manager.all && C.Replaces(c, x)
    modifies manager, manager.shards, sessions
    ensures manager.Valid()
    ensures forall x :: x in manager.all <==> x in old(manager.all) && x !in replaced
    ensures Swept(node, old(sessions.keys), sessions.keys, replaced)
  {
    for i := 0 to |replaced|
      invariant manager.Valid() && manager.all <= old(manager.all)
      invariant forall x :: x in manager.all <==> x in old(manager.all) && x !in replaced[..i]
      invariant Swept(node, old(sessions.keys), sessions.keys, replaced[..i])
    {
      assert replaced[..i + 1] == replaced[..i] + [replaced[i]];
      assert replaced[i] in replaced && forall y :: y in replaced[..i] ==> y in replaced && y != replaced[i];
      SweepOne(node, old(sessions.keys), sessions.keys, replaced[..i], replaced[i]);
      Close(node, manager, sessions, replaced[i]);
    }
    assert replaced[..|replaced|] == replaced;
  }

  lemma AfterSweep(node: string, before: S.Keys, after: S.Keys, c: C.Connection, closed: seq<C.Connection>)
    requires Swept(node, before, after, closed) && forall x :: x in closed ==> C.Replaces(c, x)
    ensures c.device in after.devices <==>
              c.device in before.devices && !(exists x :: x in closed && Routes(before, node, x))
    ensures after == before || exists x :: x in closed && after == S.Delete(before, SessionOf(node, x))
  {
    if x :| x in closed && Routes(before, node, x) {
      assert after == S.Delete(before, SessionOf(node, x));
    }
  }

  /** A device routed to c is routed to none of the sockets c replaces. */
  lemma RegisteredSurvives(node: string, before: S.Keys, after: S.Keys, c: C.Connection, closed: seq<C.Connection>)
    requires S.NoBar(node) && Swept(node, before, after, closed) && forall x :: x in closed ==> C.Replaces(c, x)
    requires Routes(before, node, c)
    ensures after == before
  {
    forall x | x in closed ensures !Routes(before, node, x) {
      if Routes(before, node, x) {
        OneRoute(before, node, c, x);
      }
    }
  }

  /**
   The replace sequence of handleAuth with the cleanups it causes, on the
   session index of the socket's user; SetSession may fail with any prefix of
   its pipeline done, and the older sockets are closed all the same.
   Afterwards the new socket is the only one of its device. The route it
   registered survives every cleanup; a route that it could not replace is lost
   exactly if it was that of one of the closed sockets.
   */
  method Authenticate(node: string, manager: C.Manager, sessions: S.SessionManager, c: C.Connection, prefix: S.Prefix)
    requires manager.Valid() && C.UniqueIds(manager.all + {c}) && S.NoBar(node)
    modifies manager, manager.shards, sessions
    ensures manager.Valid()
    ensures c.user != 0 ==>
              forall x :: x in manager.all <==> x == c || (x in old(manager.all) && !C.Replaces(c, x))
    ensures c.user == 0 ==> manager.all == old(manager.all)
    ensures
      var k := S.Piped(old(sessions.keys), SessionOf(node, c), prefix);
      && (prefix.Whole? ==>
            && sessions.keys == k && S.KeyOk(k)
            && k == S.Keys(Some(node), old(sessions.keys).devices[c.device := node + "|" + c.id]))
      && (c.device in sessions.keys.devices <==>
            c.device in k.devices
            && !(exists x :: c.user != 0 && x in old(manager.all) && C.Replaces(c, x) && Routes(k, node, x)))
      && (sessions.keys == k || exists x :: x in old(manager.all) && sessions.keys == S.Delete(k, SessionOf(node, x)))
  {
    var replaced := manager.Add(c);
    sessions.SetSession(SessionOf(node, c), prefix);
    ghost var k := sessions.keys;
    CloseAll(node, manager, sessions, c, replaced);
    assert forall x :: x in replaced <==> c.user != 0 && x in old(manager.all) && C.Replaces(c, x);
    AfterSweep(node, k, sessions.keys, c, replaced);
    if prefix.Whole? {
      RegisteredSurvives(node, k, sessions.keys, c, replaced);
    }
  }
}
