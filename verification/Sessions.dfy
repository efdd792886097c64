/**
 The distributed session index of one user: the key naming a gateway node and
 the hash from devices to "node|connection" values, changed by pipelines and
 guarded scripts of any number of gateways. Scripts for other users touch
 other keys.
 */
module Sessions {
  import opened Domain

  /** One authenticated socket. */
  datatype Conn = Conn(node: string, id: string, device: string)

  predicate NoBar(s: string) {
    '|' !in s
  }

  function Value(c: Conn): string {
    c.node + "|" + c.id
  }

  /** The part before the first bar; a value without a bar is a legacy node id. */
  function NodeOf(value: string): string {
    if value == [] || value[0] == '|' then [] else [value[0]] + NodeOf(value[1..])
  }

  lemma {:induction false} NodeOfValue(node: string, rest: string)
    requires NoBar(node)
    ensures NodeOf(node + "|" + rest) == node
    ensures NodeOf(node) == node
  {
    if node != [] {
      NodeOfValue(node[1..], rest);
      assert (node + "|" + rest)[1..] == node[1..] + "|" + rest;
    }
  }

  lemma {:induction false} NodeOfPrefix(value: string)
    ensures NoBar(NodeOf(value)) && NodeOf(value) <= value
    ensures value == NodeOf(value) || (NodeOf(value) + "|") <= value
  {
    if value != [] && value[0] != '|' {
      NodeOfPrefix(value[1..]);
      assert value == [value[0]] + value[1..];
    }
  }

  /** The test the delete script makes on a device's value. */
  predicate RoutedTo(value: string, node: string) {
    value == node || (node + "|") <= value
  }

  /** The script's string test finds exactly the values whose node part is the node. */
  lemma ScriptTestIsNodeTest(value: string, node: string)
    requires NoBar(node)
    ensures RoutedTo(value, node) <==> NodeOf(value) == node
  {
    NodeOfPrefix(value);
    NodeOfValue(node, "");
    if (node + "|") <= value {
      NodeOfValue(node, value[|node| + 1..]);
      assert value == node + "|" + value[|node| + 1..];
    }
  }

  lemma ValueIsInjective(c: Conn, d: Conn)
    requires NoBar(c.node) && NoBar(d.node) && Value(c) == Value(d)
    ensures c.node == d.node && c.id == d.id
  {
    NodeOfValue(c.node, c.id);
    NodeOfValue(d.node, d.id);
    assert Value(c)[|c.node| + 1..] == c.id && Value(d)[|d.node| + 1..] == d.id;
  }

  // ------------------------------------------------------------------ the steps

  datatype Keys = Keys(user: Option<string>, devices: map<string, string>)

  predicate SomeDeviceOn(devices: map<string, string>, node: string) {
    exists d :: d in devices && NodeOf(devices[d]) == node
  }

  /** The two effective commands of the SetSession pipeline, which Redis may interleave with others. */
  function SetUserKey(k: Keys, c: Conn): Keys {
    k.(user := Some(c.node))
  }

  function PutDevice(k: Keys, c: Conn): Keys {
    k.(devices := k.devices[c.device := Value(c)])
  }

  /** The delete script, which is atomic. */
  function Delete(k: Keys, c: Conn): Keys {
    if c.device !in k.devices || k.devices[c.device] != Value(c) then k
    else
      var rest := k.devices - {c.device};
      if k.user == Some(c.node) && !(exists d :: d in rest && RoutedTo(rest[d], c.node))
      then Keys(None, rest) else Keys(k.user, rest)
  }

  /** Refreshing expiry times changes no route. */
  datatype Label = UserKeyCommand(conn: Conn) | DeviceCommand(conn: Conn) | DeleteScript(conn: Conn) | ExpireScript(conn: Conn)

  /** Who last wrote a device's route, and whether that same connection has deleted it since. */
  datatype Last = Last(conn: Conn, deleted: bool)

  datatype State = State(keys: Keys, last: map<string, Last>)

  const INITIAL := State(Keys(None, map[]), map[])

  function Step(s: State, l: Label): State {
    var c := l.conn;
    if !NoBar(c.node) then s
    else match l
      case UserKeyCommand(_) => s.(keys := SetUserKey(s.keys, c))
      case DeviceCommand(_) => State(PutDevice(s.keys, c), s.last[c.device := Last(c, false)])
      case DeleteScript(_) =>
        State(Delete(s.keys, c),
              if c.device in s.last && s.last[c.device].conn == c
              then s.last[c.device := Last(c, true)] else s.last)
      case ExpireScript(_) => s
  }

  function Run(labels: seq<Label>): State {
    if labels == [] then INITIAL
    else Step(Run(labels[..|labels| - 1]), labels[|labels| - 1])
  }

  // ------------------------------------------------------------------ routes

  ghost predicate RoutesOk(s: State) {
    forall d ::
      if d in s.last && !s.last[d].deleted
      then d in s.keys.devices && s.keys.devices[d] == Value(s.last[d].conn)
           && NoBar(s.last[d].conn.node) && s.last[d].conn.device == d
      else d !in s.keys.devices
  }

  lemma StepKeepsRoutes(s: State, l: Label)
    requires RoutesOk(s)
    ensures RoutesOk(Step(s, l))
  {
    if l.DeleteScript? && NoBar(l.conn.node) && l.conn.device in s.keys.devices
       && s.keys.devices[l.conn.device] == Value(l.conn) {
      assert l.conn.device in s.last && !s.last[l.conn.device].deleted;
      ValueIsInjective(l.conn, s.last[l.conn.device].conn);
    }
  }

  /**
   After any interleaving of the commands and scripts of all gateways: a
   device is routed exactly to the last connection that registered it, and is
   absent exactly when that same connection has deleted it or none registered.
   */
  lemma {:induction false} RouteIsLastWriter(labels: seq<Label>)
    ensures RoutesOk(Run(labels))
  {
    if labels != [] {
      RouteIsLastWriter(labels[..|labels| - 1]);
      StepKeepsRoutes(Run(labels[..|labels| - 1]), labels[|labels| - 1]);
    }
  }

  /** The cleanup of a connection whose device another one has registered since changes nothing, however late it runs. */
  lemma ReplacedCleanupIsNoOp(labels: seq<Label>, c: Conn)
    requires c.device in Run(labels).last && Run(labels).last[c.device].conn != c
    ensures Step(Run(labels), DeleteScript(c)) == Run(labels)
  {
    var s := Run(labels);
    RouteIsLastWriter(labels);
    if NoBar(c.node) && c.device in s.keys.devices && s.keys.devices[c.device] == Value(c) {
      ValueIsInjective(c, s.last[c.device].conn);
    }
  }

  // ------------------------------------------------------------------ the user key

  /** A user key naming a node means some device is routed there. */
  ghost predicate KeyOk(k: Keys) {
    k.user.Some? ==> SomeDeviceOn(k.devices, k.user.value)
  }

  /** The delete script neither breaks the property nor restores it. */
  lemma DeleteKeepsKey(k: Keys, c: Conn)
    requires NoBar(c.node)
    ensures KeyOk(Delete(k, c)) <==> KeyOk(k)
  {
    var k' := Delete(k, c);
    NodeOfValue(c.node, c.id);
    if k' != k && k.user.Some? {
      forall d | d in k'.devices ensures RoutedTo(k'.devices[d], c.node) <==> NodeOf(k'.devices[d]) == c.node {
        ScriptTestIsNodeTest(k'.devices[d], c.node);
      }
      assert forall d :: d in k.devices && d != c.device ==> d in k'.devices && k'.devices[d] == k.devices[d];
      assert NodeOf(k.devices[c.device]) == c.node;
    }
  }

  lemma RegisterKeepsKey(k: Keys, c: Conn)
    requires NoBar(c.node)
    ensures KeyOk(PutDevice(SetUserKey(k, c), c))
  {
    NodeOfValue(c.node, c.id);
    assert c.device in PutDevice(k, c).devices;
  }

  /** Gateway actions when Redis runs each SetSession pipeline without interruption. */
  datatype Action = Register(conn: Conn) | Unregister(conn: Conn)

  function Apply(k: Keys, actions: seq<Action>): Keys {
    if actions == [] then k
    else
      var before, last := Apply(k, actions[..|actions| - 1]), actions[|actions| - 1];
      if !NoBar(last.conn.node) then before
      else if last.Register? then PutDevice(SetUserKey(before, last.conn), last.conn)
      else Delete(before, last.conn)
  }

  /** The commands and scripts that these actions run. */
  function Commands(actions: seq<Action>): seq<Label> {
    if actions == [] then []
    else
      var before, last := Commands(actions[..|actions| - 1]), actions[|actions| - 1];
      match last
      case Register(c) => before + [UserKeyCommand(c), DeviceCommand(c)]
      case Unregister(c) => before + [DeleteScript(c)]
  }

  lemma OneCommandMore(labels: seq<Label>, l: Label)
    ensures Run(labels + [l]) == Step(Run(labels), l)
  {
    assert (labels + [l])[..|labels|] == labels;
  }

  /** Uninterrupted actions are a run of the step system. */
  lemma {:induction false} ActionsAreCommands(actions: seq<Action>)
    ensures Apply(INITIAL.keys, actions) == Run(Commands(actions)).keys
  {
    if actions != [] {
      var before, last := actions[..|actions| - 1], actions[|actions| - 1];
      ActionsAreCommands(before);
      match last
      case Register(c) =>
        assert Commands(actions) == Commands(before) + [UserKeyCommand(c)] + [DeviceCommand(c)];
        OneCommandMore(Commands(before), UserKeyCommand(c));
        OneCommandMore(Commands(before) + [UserKeyCommand(c)], DeviceCommand(c));
      case Unregister(c) =>
        OneCommandMore(Commands(before), DeleteScript(c));
    }
  }

  lemma {:induction false} UninterruptedKeepsKey(k: Keys, actions: seq<Action>)
    requires KeyOk(k)
    ensures KeyOk(Apply(k, actions))
  {
    if actions != [] {
      var last := actions[|actions| - 1];
      UninterruptedKeepsKey(k, actions[..|actions| - 1]);
      if NoBar(last.conn.node) {
        RegisterKeepsKey(Apply(k, actions[..|actions| - 1]), last.conn);
        DeleteKeepsKey(Apply(k, actions[..|actions| - 1]), last.conn);
      }
    }
  }

  /** An interrupted pipeline breaks it: two gateways taking over one device with commands crossed. */
  lemma InterruptionBreaksKey()
    ensures
      var a, b := Conn("a", "1", "phone"), Conn("b", "2", "phone");
      !KeyOk(Run([UserKeyCommand(b), UserKeyCommand(a), DeviceCommand(a), DeviceCommand(b)]).keys)
  {
    var a, b := Conn("a", "1", "phone"), Conn("b", "2", "phone");
    var labels := [UserKeyCommand(b), UserKeyCommand(a), DeviceCommand(a), DeviceCommand(b)];
    assert labels[..3][..2] == labels[..2] && labels[..2][..1] == labels[..1];
    assert Run(labels[..1]).keys == Keys(Some("b"), map[]);
    assert Run(labels[..2]).keys == Keys(Some("a"), map[]);
    assert Run(labels).keys == Keys(Some("a"), map["phone" := Value(b)]);
    NodeOfValue("b", "2");
    assert "a"[0] != "b"[0];
  }

  /** Exactly when the property holds after the device command of a pipeline, whatever ran before it. */
  lemma DeviceCommandKeepsKeyIff(k: Keys, c: Conn)
    requires NoBar(c.node)
    ensures KeyOk(PutDevice(k, c)) <==>
      k.user.None? || k.user == Some(c.node) || SomeDeviceOn(k.devices - {c.device}, k.user.value)
  {
    NodeOfValue(c.node, c.id);
    var k' := PutDevice(k, c);
    assert NodeOf(k'.devices[c.device]) == c.node;
    if k.user.Some? {
      if k.user == Some(c.node) {
        assert SomeDeviceOn(k'.devices, c.node);
      } else if d :| d in k.devices - {c.device} && NodeOf((k.devices - {c.device})[d]) == k.user.value {
        assert k'.devices[d] == k.devices[d];
      } else {
        forall d | d in k'.devices ensures NodeOf(k'.devices[d]) != k.user.value {
          assert d != c.device ==> d in k.devices - {c.device} && (k.devices - {c.device})[d] == k'.devices[d];
        }
      }
    }
  }

  /**
   After any run that ends with a command or script of c, other gateways'
   commands and scripts lying anywhere before and between: the property holds
   after the user-key command of its pipeline exactly if a device is routed to
   c's node already, after the device command exactly if the key is unset, names
   c's node, or names the node of another device, and after the delete script
   exactly if it held before.
   */
  lemma KeyAfterCommandIff(labels: seq<Label>, c: Conn)
    requires NoBar(c.node)
    ensures KeyOk(Run(labels + [UserKeyCommand(c)]).keys) <==> SomeDeviceOn(Run(labels).keys.devices, c.node)
    ensures
      var k := Run(labels).keys;
      KeyOk(Run(labels + [DeviceCommand(c)]).keys) <==>
        k.user.None? || k.user == Some(c.node) || SomeDeviceOn(k.devices - {c.device}, k.user.value)
    ensures KeyOk(Run(labels + [DeleteScript(c)]).keys) <==> KeyOk(Run(labels).keys)
  {
    var k := Run(labels).keys;
    assert (labels + [UserKeyCommand(c)])[..|labels|] == labels;
    assert (labels + [DeviceCommand(c)])[..|labels|] == labels;
    assert (labels + [DeleteScript(c)])[..|labels|] == labels;
    DeleteKeepsKey(k, c);
    DeviceCommandKeepsKeyIff(k, c);
  }

  // ------------------------------------------------------------------ the session manager

  /** How much of a pipeline took effect. */
  datatype Prefix = Nothing | KeySet | Whole

  function Piped(k: Keys, c: Conn, prefix: Prefix): Keys {
    match prefix
    case Nothing => k
    case KeySet => SetUserKey(k, c)
    case Whole => PutDevice(SetUserKey(k, c), c)
  }

  class SessionManager {
    var keys: Keys

    constructor ()
      ensures keys == INITIAL.keys
    {
      keys := Keys(None, map[]);
    }

    /**
     The pipeline run without interruption, of which a failure may leave a
     prefix. Run to its end, the device is routed to this node, the key names a
     node that hosts a device whatever it named before, and deleting the session
     again would leave the other routes as they were; these never change.
     */
    method SetSession(c: Conn, prefix: Prefix)
      modifies this
      ensures keys == Piped(old(keys), c, prefix)
      ensures prefix.Whole? && NoBar(c.node) ==> KeyOk(keys) && NodeOf(keys.devices[c.device]) == c.node
      ensures forall d :: d != c.device && d in old(keys).devices ==> d in keys.devices && keys.devices[d] == old(keys).devices[d]
      ensures prefix.Whole? ==> Delete(keys, c).devices == old(keys).devices - {c.device}
    {
      if NoBar(c.node) {
        RegisterKeepsKey(keys, c);
        NodeOfValue(c.node, c.id);
      }
      if prefix.Nothing? {
        return;
      }
      keys := keys.(user := Some(c.node));
      if prefix.KeySet? {
        return;
      }
      keys := keys.(devices := keys.devices[c.device := c.node + "|" + c.id]);
      assert keys.devices - {c.device} == old(keys).devices - {c.device};
    }

    /** The delete script, scanning the remaining devices for one on the same node. */
    method DelSession(c: Conn) returns (deleted: bool)
      modifies this
      ensures keys == Delete(old(keys), c)
      ensures deleted <==> c.device in old(keys).devices && old(keys).devices[c.device] == Value(c)
    {
      if c.device !in keys.devices || keys.devices[c.device] != c.node + "|" + c.id {
        return false;
      }
      var rest := keys.devices - {c.device};
      keys := keys.(devices := rest);
      if keys.user == Some(c.node) {
        var hasLocal := false;
        var unseen := rest.Keys;
        while unseen != {} && !hasLocal
          invariant unseen <= rest.Keys
          invariant hasLocal ==> exists d :: d in rest && RoutedTo(rest[d], c.node)
          invariant !hasLocal ==> forall d :: d in rest && d !in unseen ==> !RoutedTo(rest[d], c.node)
          decreases unseen
        {
          var d :| d in unseen;
          if rest[d] == c.node || (|c.node| < |rest[d]| && rest[d][..|c.node| + 1] == c.node + "|") {
            hasLocal := true;
          }
          unseen := unseen - {d};
        }
        if !hasLocal {
          keys := keys.(user := None);
        }
      }
      deleted := true;
    }
  }
}
