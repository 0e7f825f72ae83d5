/** The one-shot watch table (zk/conn.go:585-599, 870-903, 944-952) and the
    calls that register in it (zk/conn.go:1008-1171). */
module WatchTable {
  import opened Text
  import opened Errors
  import opened Bytes
  import opened WatchKeys

  datatype EventType = NodeCreated | NodeDeleted | NodeDataChanged | NodeChildrenChanged | Session | NotWatching | Other(code: int)

  datatype Event = Event(kind: EventType, path: seq<byte>, error: Option<Error>)

  /** The kinds of watch that a notification of this type fires. */
  function Fires(t: EventType): seq<Kind>
  {
    match t
    case NodeCreated => [Exist]
    case NodeDeleted => [Exist, Data, Child]
    case NodeDataChanged => [Exist, Data, Child]
    case NodeChildrenChanged => [Child]
    case Session => []
    case NotWatching => []
    case Other(_) => []
  }

  // ----- what becomes of every watch

  /** A watch and what its channel received; the channel is closed once it did. */
  datatype Watch = Watch(key: Key, events: seq<Event>)

  datatype Op =
    | Register(key: Key)
    | Notification(kind: EventType, path: seq<byte>)
    | Invalidation(error: Error)

  predicate Covers(op: Op, key: Key)
  {
    match op
    case Register(_) => false
    case Notification(kind, path) => key.path == path && key.kind in Fires(kind)
    case Invalidation(_) => true
  }

  function EventFor(op: Op, key: Key): Event
    requires Covers(op, key)
  {
    match op
    case Notification(kind, path) => Event(kind, path, None)
    case Invalidation(error) => Event(NotWatching, key.path, Some(error))
  }

  /** One open watch, or every watch in turn, after op. */
  function WatchAfter(w: Watch, op: Op): Watch
  {
    if w.events == [] && Covers(op, w.key) then w.(events := [EventFor(op, w.key)]) else w
  }

  function After(ws: seq<Watch>, op: Op): (r: seq<Watch>)
    ensures |r| == |ws| + if op.Register? then 1 else 0
  {
    if op.Register? then ws + [Watch(op.key, [])]
    else seq(|ws|, c requires 0 <= c < |ws| => WatchAfter(ws[c], op))
  }

  /** All watches after a history of operations. */
  function Run(ops: seq<Op>): seq<Watch>
  {
    if ops == [] then [] else After(Run(ops[..|ops| - 1]), Last(ops))
  }

  /** The reference: looking forward, the first operation that covers the key
      decides, and nothing after it matters. */
  function FirstEvent(later: seq<Op>, key: Key): (r: seq<Event>)
    ensures |r| <= 1
  {
    if later == [] then []
    else if Covers(later[0], key) then [EventFor(later[0], key)]
    else FirstEvent(later[1..], key)
  }

  lemma {:induction false} FirstEventSnoc(later: seq<Op>, op: Op, key: Key)
    ensures WatchAfter(Watch(key, FirstEvent(later, key)), op) == Watch(key, FirstEvent(later + [op], key))
  {
    if later == [] {
      assert (later + [op])[1..] == [];
    } else {
      assert (later + [op])[1..] == later[1..] + [op];
      FirstEventSnoc(later[1..], op, key);
    }
  }

  /** A watch registered by operation i receives exactly the first later event
      that covers its key: nothing before, nothing else, nothing twice. */
  lemma {:induction false} StreamSpec(ops: seq<Op>, i: nat)
    requires i < |ops| && ops[i].Register?
    ensures |Run(ops[..i])| < |Run(ops)|
    ensures Run(ops)[|Run(ops[..i])|] == Watch(ops[i].key, FirstEvent(ops[i + 1..], ops[i].key))
  {
    var shorter := ops[..|ops| - 1];
    if i == |ops| - 1 {
      assert ops[..i] == shorter && ops[i + 1..] == [];
    } else {
      StreamSpec(shorter, i);
      assert shorter[..i] == ops[..i];
      assert ops[i + 1..] == shorter[i + 1..] + [Last(ops)];
      FirstEventSnoc(shorter[i + 1..], Last(ops), ops[i].key);
    }
  }

  /** Every watch was registered by some operation. */
  lemma {:induction false} WatchHasRegistration(ops: seq<Op>, c: nat) returns (i: nat)
    requires c < |Run(ops)|
    ensures i < |ops| && ops[i].Register? && |Run(ops[..i])| == c
  {
    var shorter := ops[..|ops| - 1];
    if c < |Run(shorter)| {
      i := WatchHasRegistration(shorter, c);
      assert shorter[..i] == ops[..i];
    } else {
      i := |ops| - 1;
      assert ops[..i] == shorter;
    }
  }

  /** After the client shut down (or the session expired) every watch ever
      registered has received exactly one event. */
  lemma {:induction false} ShutdownReachesAll(ops: seq<Op>, error: Error, c: nat)
    requires c < |Run(ops + [Invalidation(error)])|
    ensures |Run(ops + [Invalidation(error)])[c].events| == 1
    ensures c < |Run(ops)|
    ensures var was, now := Run(ops)[c], Run(ops + [Invalidation(error)])[c];
            && now.key == was.key
            && now.events == (if was.events != [] then was.events
                              else [Event(NotWatching, was.key.path, Some(error))])
  {
    var all := ops + [Invalidation(error)];
    assert all[..|all| - 1] == ops;
    var i := WatchHasRegistration(ops, c);
    StreamSpec(ops, i);
  }

  // ----- packets of one connection

  datatype WatchCall = GetW | ExistsW | ChildrenW

  /** What recvLoop reads: a notification, or the response to a watching call.
      Other responses do not touch the table. */
  datatype Packet =
    | WatchEvent(kind: EventType, path: seq<byte>)
    | Response(call: WatchCall, path: seq<byte>, error: Option<Error>)

  /** The watch that the recvFunc of a call registers. */
  function Registers(call: WatchCall, path: seq<byte>, error: Option<Error>): Option<Key>
  {
    match call
    case GetW => if error.None? then Some(Key(path, Data)) else None
    case ChildrenW => if error.None? then Some(Key(path, Child)) else None
    case ExistsW =>
      if error.None? then Some(Key(path, Data))
      else if error.value.ErrNoNode? then Some(Key(path, Exist))
      else None
  }

  /** A call registers a watch exactly when it succeeded or, for ExistsW, when the
      node is missing; and the watch is on these notifications of its path. */
  lemma {:induction false} CallWakesOn(call: WatchCall, path: seq<byte>, error: Option<Error>, kind: EventType)
    ensures var key := Registers(call, path, error);
            && (key.Some? <==> error.None? || (call.ExistsW? && error.value.ErrNoNode?))
            && (key.Some? ==> key.value.path == path)
            && (key.Some? ==> (key.value.kind.Exist? <==> error.Some?) && (key.value.kind.Child? <==> call.ChildrenW?))
            && (key.Some? ==>
                  (key.value.kind in Fires(kind) <==>
                     || kind.NodeDeleted? || kind.NodeDataChanged?
                     || (kind.NodeCreated? && error.Some?)
                     || (kind.NodeChildrenChanged? && call.ChildrenW?)))
  {
  }

  function OpsOf(p: Packet): seq<Op>
  {
    match p
    case WatchEvent(kind, path) => [Notification(kind, path)]
    case Response(call, path, error) =>
      match Registers(call, path, error)
      case None => []
      case Some(key) => [Register(key)]
  }

  function OpsOfAll(ps: seq<Packet>): seq<Op>
  {
    if ps == [] then [] else OpsOf(ps[0]) + OpsOfAll(ps[1..])
  }

  /** The first packet that fires a watch of this key. */
  function FirstPacket(ps: seq<Packet>, key: Key): seq<Event>
  {
    if ps == [] then []
    else if ps[0].WatchEvent? && ps[0].path == key.path && key.kind in Fires(ps[0].kind)
    then [Event(ps[0].kind, ps[0].path, None)]
    else FirstPacket(ps[1..], key)
  }

  lemma {:induction false} FiresOn(t: EventType, kind: Kind)
    ensures kind in Fires(t) <==>
              || t.NodeDeleted? || t.NodeDataChanged?
              || (t.NodeCreated? && kind.Exist?) || (t.NodeChildrenChanged? && kind.Child?)
  {
    assert kind == Data || kind == Exist || kind == Child;
  }

  /** A notification of a change that concerns a watch of this key. */
  predicate Concerns(p: Packet, key: Key)
  {
    && p.WatchEvent? && p.path == key.path
    && (p.kind.NodeDeleted? || p.kind.NodeDataChanged?
        || (p.kind.NodeCreated? && key.kind.Exist?)
        || (p.kind.NodeChildrenChanged? && key.kind.Child?))
  }

  /** Either no packet concerns the watch, or the first that does is its event. */
  lemma {:induction false} FirstPacketMeans(ps: seq<Packet>, key: Key)
    ensures FirstPacket(ps, key) == [] <==> forall j :: 0 <= j < |ps| ==> !Concerns(ps[j], key)
    ensures forall j :: 0 <= j < |ps| && Concerns(ps[j], key) && (forall i :: 0 <= i < j ==> !Concerns(ps[i], key)) ==>
              FirstPacket(ps, key) == [Event(ps[j].kind, key.path, None)]
  {
    hide Fires;
    if ps != [] {
      FirstPacketMeans(ps[1..], key);
      assert ps == [ps[0]] + ps[1..];
      if ps[0].WatchEvent? {
        FiresOn(ps[0].kind, key.kind);
      }
    }
  }

  lemma {:induction false} FirstPacketIs(ps: seq<Packet>, key: Key)
    ensures FirstEvent(OpsOfAll(ps), key) == FirstPacket(ps, key)
  {
    if ps != [] {
      FirstPacketIs(ps[1..], key);
      var ops := OpsOfAll(ps);
      if OpsOf(ps[0]) != [] {
        assert ops[0] == OpsOf(ps[0])[0] && ops[1..] == OpsOfAll(ps[1..]);
      } else {
        assert ops == OpsOfAll(ps[1..]);
      }
    }
  }

  lemma {:induction false} OpsOfConcat(a: seq<Packet>, b: seq<Packet>)
    ensures OpsOfAll(a + b) == OpsOfAll(a) + OpsOfAll(b)
  {
    if a == [] {
      assert a + b == b;
    } else {
      assert (a + b)[1..] == a[1..] + b;
      OpsOfConcat(a[1..], b);
    }
  }

  /** The registration made by response i, and what stands before and behind it. */
  lemma {:induction false} RegisterStands(ps: seq<Packet>, i: nat, key: Key) returns (n: nat)
    requires i < |ps| && ps[i].Response? && Registers(ps[i].call, ps[i].path, ps[i].error) == Some(key)
    ensures var ops := OpsOfAll(ps);
            && n < |ops| && ops[n] == Register(key)
            && ops[..n] == OpsOfAll(ps[..i]) && ops[n + 1..] == OpsOfAll(ps[i + 1..])
  {
    hide Registers;
    var before, after := OpsOfAll(ps[..i]), OpsOfAll(ps[i + 1..]);
    assert ps == ps[..i] + ps[i..] && ps[i..][1..] == ps[i + 1..];
    OpsOfConcat(ps[..i], ps[i..]);
    assert OpsOfAll(ps[i..]) == [Register(key)] + after;
    n := |before|;
    Middle(before, Register(key), after);
  }

  lemma {:induction false} Middle(a: seq<Op>, x: Op, b: seq<Op>)
    ensures var s := a + ([x] + b); s[|a|] == x && s[..|a|] == a && s[|a| + 1..] == b
  {
  }

  /** For any packet stream: the channel registered while response i is handled
      receives exactly the first later notification whose path matches and
      whose type covers its kind. Nothing falls in between. */
  lemma {:induction false} DeliveryIsFirstMatch(ps: seq<Packet>, i: nat, key: Key)
    requires i < |ps| && ps[i].Response? && Registers(ps[i].call, ps[i].path, ps[i].error) == Some(key)
    ensures var c := |Run(OpsOfAll(ps[..i]))|;
            c < |Run(OpsOfAll(ps))| && Run(OpsOfAll(ps))[c] == Watch(key, FirstPacket(ps[i + 1..], key))
  {
    hide Run, FirstPacket, FirstEvent, Registers, Fires, Covers, OpsOfAll;
    var n := RegisterStands(ps, i, key);
    StreamSpec(OpsOfAll(ps), n);
    FirstPacketIs(ps[i + 1..], key);
  }
}
