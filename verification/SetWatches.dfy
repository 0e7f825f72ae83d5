/** Watch re-registration after a reconnect (zk/conn.go:601-659): the watched
    paths are packed into as few size-bounded requests as the greedy loop manages. */
module SetWatches {
  import opened Text
  import opened Bytes
  import opened WatchKeys
  import opened Packets
  import opened Serializer

  /** setWatchesRequest */
  datatype Request = Request(zxid: int64, data: seq<seq<byte>>, exist: seq<seq<byte>>, child: seq<seq<byte>>)

  const DEFAULT_LIMIT := 128 * 1024
  const OVERHEAD := 28
  const OP_SET_WATCHES: int32 := 101

  function Paths(r: Request, kind: Kind): seq<seq<byte>>
  {
    match kind
    case Data => r.data
    case Exist => r.exist
    case Child => r.child
  }

  function Add(r: Request, key: Key): Request
  {
    match key.kind
    case Data => r.(data := r.data + [key.path])
    case Exist => r.(exist := r.exist + [key.path])
    case Child => r.(child := r.child + [key.path])
  }

  // ----- the size on the wire

  function Strings(paths: seq<seq<byte>>): seq<Value>
  {
    seq(|paths|, i requires 0 <= i < |paths| => VString(paths[i]))
  }

  function Body(r: Request): Value
  {
    VStruct([VInt64(r.zxid), VSlice(Strings(r.data)), VSlice(Strings(r.exist)), VSlice(Strings(r.child))])
  }

  /** The bytes of header and body, as sendData encodes them (zk/conn.go:752-766). */
  function PacketSize(xid: int32, r: Request): nat
  {
    |Serialize(VStruct([VInt32(xid), VInt32(OP_SET_WATCHES)]))| + |Serialize(Body(r))|
  }

  function PathBytes(paths: seq<seq<byte>>): nat
  {
    if paths == [] then 0 else 4 + |paths[0]| + PathBytes(paths[1..])
  }

  lemma {:induction false} PathBytesSnoc(paths: seq<seq<byte>>, p: seq<byte>)
    ensures PathBytes(paths + [p]) == PathBytes(paths) + 4 + |p|
  {
    if paths == [] {
      assert (paths + [p])[1..] == [];
    } else {
      assert (paths + [p])[1..] == paths[1..] + [p];
      PathBytesSnoc(paths[1..], p);
    }
  }

  lemma {:induction false} StringsSize(paths: seq<seq<byte>>)
    ensures |SerializeAll(Strings(paths))| == PathBytes(paths)
  {
    if paths == [] {
      assert Strings(paths) == [];
    } else {
      var vs := Strings(paths);
      assert vs[1..] == Strings(paths[1..]);
      FlatAppend(Atoms(vs[0]), AtomsAll(vs[1..]));
      StringsSize(paths[1..]);
    }
  }

  lemma {:induction false} SliceSize(paths: seq<seq<byte>>)
    ensures |Serialize(VSlice(Strings(paths)))| == 4 + PathBytes(paths)
  {
    var vs := Strings(paths);
    FlatAppend([Fixed(Put32(Length32(|vs|)))], AtomsAll(vs));
    StringsSize(paths);
  }

  lemma {:induction false} StructSize(a: Value, rest: seq<Value>)
    ensures |Serialize(VStruct([a] + rest))| == |Serialize(a)| + |Serialize(VStruct(rest))|
  {
    var fields := [a] + rest;
    assert fields[0] == a && fields[1..] == rest;
    assert AtomsAll(fields) == Atoms(a) + AtomsAll(rest);
    FlatAppend(Atoms(a), AtomsAll(rest));
  }

  lemma {:induction false} NumberSizes(i: int32, l: int64)
    ensures |Serialize(VInt32(i))| == 4 && |Serialize(VInt64(l))| == 8 && |Serialize(VStruct([]))| == 0
  {
    assert Flat([]) == [];
    assert Serialize(VInt32(i)) == Put32(Unsigned32(i)) + Flat(Atoms(VInt32(i))[1..]);
    assert Serialize(VInt64(l)) == Put64(Unsigned64(l)) + Flat(Atoms(VInt64(l))[1..]);
  }

  /** The packet takes exactly the fixed overhead and 4 bytes more than each path. */
  lemma {:induction false} ExactSize(xid: int32, r: Request)
    ensures PacketSize(xid, r) == OVERHEAD + PathBytes(r.data) + PathBytes(r.exist) + PathBytes(r.child)
  {
    hide Serialize, PathBytes;
    BodySize(r);
    var x, o := VInt32(xid), VInt32(OP_SET_WATCHES);
    assert [x, o] == [x] + ([o] + []);
    StructSize(x, [o]);
    StructSize(o, []);
    assert [o] + [] == [o];
    NumberSizes(xid, 0);
    NumberSizes(OP_SET_WATCHES, 0);
  }

  lemma {:induction false} BodySize(r: Request)
    ensures |Serialize(Body(r))| == 20 + PathBytes(r.data) + PathBytes(r.exist) + PathBytes(r.child)
  {
    hide Serialize, PathBytes, Strings;
    var z, d, e, c := VInt64(r.zxid), VSlice(Strings(r.data)), VSlice(Strings(r.exist)), VSlice(Strings(r.child));
    assert [z, d, e, c] == [z] + ([d] + ([e] + ([c] + [])));
    StructSize(z, [d] + ([e] + ([c] + [])));
    StructSize(d, [e] + ([c] + []));
    StructSize(e, [c] + []);
    StructSize(c, []);
    SliceSize(r.data);
    SliceSize(r.exist);
    SliceSize(r.child);
    NumberSizes(0, r.zxid);
  }

  lemma {:induction false} AddSize(xid: int32, r: Request, key: Key)
    ensures PacketSize(xid, Add(r, key)) == PacketSize(xid, r) + 4 + |key.path|
  {
    hide PacketSize, PathBytes;
    ExactSize(xid, r);
    ExactSize(xid, Add(r, key));
    PathBytesSnoc(Paths(r, key.kind), key.path);
  }

  lemma {:induction false} EmptySize(xid: int32, zxid: int64)
    ensures PacketSize(xid, Request(zxid, [], [], [])) == OVERHEAD
  {
    ExactSize(xid, Request(zxid, [], [], []));
  }

  // ----- which keys a batch of requests carries

  function Occurs(r: Request, key: Key): nat { multiset(Paths(r, key.kind))[key.path] }

  function OccursAll(rs: seq<Request>, key: Key): nat
  {
    if rs == [] then 0 else OccursAll(rs[..|rs| - 1], key) + Occurs(Last(rs), key)
  }

  function PathCount(r: Request): nat { |r.data| + |r.exist| + |r.child| }

  ghost predicate Wanted<C>(order: seq<Key>, watchers: map<Key, seq<C>>, key: Key)
  {
    key in order && key in watchers && watchers[key] != []
  }

  /** Every key with a watcher is carried exactly once, under its own kind, and no
      other key is carried. */
  ghost predicate Partition<C>(rs: seq<Request>, order: seq<Key>, watchers: map<Key, seq<C>>)
  {
    forall key :: OccursAll(rs, key) == if Wanted(order, watchers, key) then 1 else 0
  }

  /** No request is empty, only a request with a single path may exceed the limit,
      and two consecutive requests would not have fitted in one. */
  ghost predicate Bounded(rs: seq<Request>, xid: int32, limit: int)
  {
    && (forall i :: 0 <= i < |rs| ==> PathCount(rs[i]) >= 1)
    && (forall i :: 0 <= i < |rs| && PathCount(rs[i]) >= 2 ==> PacketSize(xid, rs[i]) <= limit)
    && (forall i :: 0 <= i < |rs| - 1 ==> PacketSize(xid, rs[i]) + PacketSize(xid, rs[i + 1]) - OVERHEAD > limit)
  }

  lemma {:induction false} AddOccurs(r: Request, key: Key, other: Key)
    ensures Occurs(Add(r, key), other) == Occurs(r, other) + if other == key then 1 else 0
    ensures PathCount(Add(r, key)) == PathCount(r) + 1 && Add(r, key).zxid == r.zxid
  {
  }

  lemma {:induction false} OccursSnoc(rs: seq<Request>, r: Request, key: Key)
    ensures OccursAll(rs + [r], key) == OccursAll(rs, key) + Occurs(r, key)
  {
    assert (rs + [r])[..|rs|] == rs;
  }

  /** The key goes into the last request. */
  lemma {:induction false} GrowLast<C>(rs: seq<Request>, r: Request, key: Key, done: seq<Key>, watchers: map<Key, seq<C>>, xid: int32, limit: int)
    requires Partition(rs + [r], done, watchers) && Bounded(rs + [r], xid, limit)
    requires key !in done && key in watchers && watchers[key] != []
    requires PacketSize(xid, r) + 4 + |key.path| <= limit
    ensures Partition(rs + [Add(r, key)], done + [key], watchers) && Bounded(rs + [Add(r, key)], xid, limit)
  {
    hide PacketSize, Occurs, OccursAll, Add, PathCount;
    AddSize(xid, r, key);
    AddOccurs(r, key, key);
    forall other ensures OccursAll(rs + [Add(r, key)], other) == if Wanted(done + [key], watchers, other) then 1 else 0 {
      OccursSnoc(rs, r, other);
      OccursSnoc(rs, Add(r, key), other);
      AddOccurs(r, key, other);
    }
    GrowBounded(rs, r, Add(r, key), xid, limit);
  }

  lemma {:induction false} GrowBounded(rs: seq<Request>, r: Request, s: Request, xid: int32, limit: int)
    requires Bounded(rs + [r], xid, limit) && PathCount(s) >= 1
    requires PacketSize(xid, r) <= PacketSize(xid, s) <= limit
    ensures Bounded(rs + [s], xid, limit)
  {
    hide PacketSize, PathCount;
    var before, after := rs + [r], rs + [s];
    assert forall i :: 0 <= i < |rs| ==> before[i] == after[i];
    assert before[|rs|] == r && after[|rs|] == s;
  }

  /** The key opens a new request. */
  lemma {:induction false} OpenNew<C>(rs: seq<Request>, blank: Request, key: Key, done: seq<Key>, watchers: map<Key, seq<C>>, xid: int32, limit: int)
    requires Partition(rs, done, watchers) && Bounded(rs, xid, limit)
    requires key !in done && key in watchers && watchers[key] != []
    requires blank == Request(blank.zxid, [], [], [])
    requires rs != [] ==> PacketSize(xid, Last(rs)) + 4 + |key.path| > limit
    ensures Partition(rs + [Add(blank, key)], done + [key], watchers) && Bounded(rs + [Add(blank, key)], xid, limit)
  {
    hide PacketSize, Occurs, OccursAll, Add, PathCount, Bounded;
    var r := Add(blank, key);
    BlankOccurs(blank);
    AddSize(xid, blank, key);
    EmptySize(xid, blank.zxid);
    AddOccurs(blank, key, key);
    forall other ensures OccursAll(rs + [r], other) == if Wanted(done + [key], watchers, other) then 1 else 0 {
      OccursSnoc(rs, r, other);
      AddOccurs(blank, key, other);
    }
    OpenBounded(rs, r, xid, limit);
  }

  lemma {:induction false} BlankOccurs(blank: Request)
    requires blank == Request(blank.zxid, [], [], [])
    ensures PathCount(blank) == 0 && forall key :: Occurs(blank, key) == 0
  {
  }

  lemma {:induction false} OpenBounded(rs: seq<Request>, r: Request, xid: int32, limit: int)
    requires Bounded(rs, xid, limit) && PathCount(r) == 1
    requires rs != [] ==> PacketSize(xid, Last(rs)) + PacketSize(xid, r) - OVERHEAD > limit
    ensures Bounded(rs + [r], xid, limit)
  {
    hide PacketSize, PathCount;
    var all := rs + [r];
    assert forall i :: 0 <= i < |rs| ==> all[i] == rs[i];
    assert all[|rs|] == r;
  }

  /** sendSetWatches: for any iteration order over the watch table. */
  method Pack<C>(order: seq<Key>, watchers: map<Key, seq<C>>, setWatchLimit: int, lastZxid: int64, ghost xid: int32)
    returns (reqs: seq<Request>)
    requires forall i, j :: 0 <= i < j < |order| ==> order[i] != order[j]
    requires forall key :: key in order <==> key in watchers
    ensures Partition(reqs, order, watchers)
    ensures forall path ::
              && InData(reqs, path) == (if Key(path, Data) in watchers && watchers[Key(path, Data)] != [] then 1 else 0)
              && InExist(reqs, path) == (if Key(path, Exist) in watchers && watchers[Key(path, Exist)] != [] then 1 else 0)
              && InChild(reqs, path) == (if Key(path, Child) in watchers && watchers[Key(path, Child)] != [] then 1 else 0)
    ensures Bounded(reqs, xid, if setWatchLimit > 0 then setWatchLimit else 131072)
    ensures var limit := if setWatchLimit > 0 then setWatchLimit else 131072;
            AllWithin(reqs, xid, limit) <==> PathsFit(order, watchers, limit)
    ensures forall i :: 0 <= i < |reqs| ==> reqs[i].zxid == lastZxid
  {
    hide PacketSize, Partition, Bounded, Add, AllWithin, PathsFit, InData, InExist, InChild;
    EmptyBatch(order, watchers, xid, if setWatchLimit > 0 then setWatchLimit else DEFAULT_LIMIT);
    var limit := if setWatchLimit > 0 then setWatchLimit else DEFAULT_LIMIT;
    reqs := [];
    var req: Option<Request> := None;
    var sizeSoFar := 0;
    var i := 0;
    while i < |order|
      invariant 0 <= i <= |order|
      invariant req.None? ==> reqs == []
      invariant req.Some? ==> sizeSoFar == PacketSize(xid, req.value) && req.value.zxid == lastZxid
      invariant forall k :: 0 <= k < |reqs| ==> reqs[k].zxid == lastZxid
      invariant Partition(All(reqs, req), order[..i], watchers)
      invariant Bounded(All(reqs, req), xid, limit)
    {
      var key := order[i];
      assert order[..i + 1] == order[..i] + [key];
      if watchers[key] == [] {
        Skip(All(reqs, req), order[..i], key, watchers);
      } else {
        var addlLen := 4 + |key.path|;
        if req.None? || sizeSoFar + addlLen > limit {
          OpenNew(All(reqs, req), Request(lastZxid, [], [], []), key, order[..i], watchers, xid, limit);
          if req.Some? {
            reqs := reqs + [req.value];
          }
          sizeSoFar := OVERHEAD;
          EmptySize(xid, lastZxid);
          req := Some(Request(lastZxid, [], [], []));
        } else {
          GrowLast(reqs, req.value, key, order[..i], watchers, xid, limit);
        }
        AddSize(xid, req.value, key);
        AddOccurs(req.value, key, key);
        sizeSoFar := sizeSoFar + addlLen;
        req := Some(Add(req.value, key));
      }
      i := i + 1;
    }
    assert order[..i] == order;
    if req.Some? {
      reqs := reqs + [req.value];
    }
    WithinLimitExactly(reqs, order, watchers, xid, limit);
    forall path
      ensures InData(reqs, path) == (if Key(path, Data) in watchers && watchers[Key(path, Data)] != [] then 1 else 0)
      ensures InExist(reqs, path) == (if Key(path, Exist) in watchers && watchers[Key(path, Exist)] != [] then 1 else 0)
      ensures InChild(reqs, path) == (if Key(path, Child) in watchers && watchers[Key(path, Child)] != [] then 1 else 0)
    {
      PartitionByList(reqs, order, watchers, path);
    }
  }

  lemma {:induction false} EmptyBatch<C>(order: seq<Key>, watchers: map<Key, seq<C>>, xid: int32, limit: int)
    ensures Partition([], order[..0], watchers) && Bounded([], xid, limit)
  {
  }

  function All(reqs: seq<Request>, req: Option<Request>): seq<Request>
  {
    if req.Some? then reqs + [req.value] else reqs
  }

  lemma {:induction false} Skip<C>(rs: seq<Request>, done: seq<Key>, key: Key, watchers: map<Key, seq<C>>)
    requires Partition(rs, done, watchers) && key in watchers && watchers[key] == []
    ensures Partition(rs, done + [key], watchers)
  {
  }

  // ----- how many requests there can be

  // ----- when every request is within the limit

  lemma {:induction false} PathTakes(paths: seq<seq<byte>>, p: seq<byte>)
    requires p in paths
    ensures PathBytes(paths) >= 4 + |p|
  {
    if p != paths[0] {
      PathTakes(paths[1..], p);
    }
  }

  /** A path that a request carries takes its share of the packet. */
  lemma {:induction false} OccursTakes(xid: int32, r: Request, key: Key)
    requires Occurs(r, key) > 0
    ensures PacketSize(xid, r) >= OVERHEAD + 4 + |key.path|
  {
    ExactSize(xid, r);
    PathTakes(Paths(r, key.kind), key.path);
  }

  /** A request with a single path is exactly as long as that path makes it. */
  lemma {:induction false} SinglePath(xid: int32, r: Request) returns (key: Key)
    requires PathCount(r) == 1
    ensures Occurs(r, key) == 1 && PacketSize(xid, r) == OVERHEAD + 4 + |key.path|
  {
    ExactSize(xid, r);
    var kind := if |r.data| == 1 then Data else if |r.exist| == 1 then Exist else Child;
    var paths := Paths(r, kind);
    key := Key(paths[0], kind);
    assert paths == [] + [paths[0]] && paths[..0] == [];
    PathBytesSnoc([], paths[0]);
  }

  lemma {:induction false} OccursSomewhere(rs: seq<Request>, key: Key) returns (i: nat)
    requires OccursAll(rs, key) > 0
    ensures i < |rs| && Occurs(rs[i], key) > 0
  {
    if Occurs(Last(rs), key) > 0 {
      i := |rs| - 1;
    } else {
      i := OccursSomewhere(rs[..|rs| - 1], key);
    }
  }

  lemma {:induction false} OccursCounts(rs: seq<Request>, i: nat, key: Key)
    requires i < |rs|
    ensures OccursAll(rs, key) >= Occurs(rs[i], key)
  {
    if i < |rs| - 1 {
      OccursCounts(rs[..|rs| - 1], i, key);
    }
  }

  ghost predicate AllWithin(rs: seq<Request>, xid: int32, limit: int)
  {
    forall i :: 0 <= i < |rs| ==> PacketSize(xid, rs[i]) <= limit
  }

  /** Every watched path fits a request of its own. */
  ghost predicate PathsFit<C>(order: seq<Key>, watchers: map<Key, seq<C>>, limit: int)
  {
    forall key :: Wanted(order, watchers, key) ==> OVERHEAD + 4 + |key.path| <= limit
  }

  /** The requests respect the limit if and only if every single watched path does. */
  lemma {:induction false} WithinLimitExactly<C>(rs: seq<Request>, order: seq<Key>, watchers: map<Key, seq<C>>, xid: int32, limit: int)
    requires Partition(rs, order, watchers) && Bounded(rs, xid, limit)
    ensures AllWithin(rs, xid, limit) <==> PathsFit(order, watchers, limit)
  {
    hide PacketSize, Occurs, OccursAll, PathCount, Wanted;
    if AllWithin(rs, xid, limit) {
      forall key | Wanted(order, watchers, key) ensures OVERHEAD + 4 + |key.path| <= limit {
        var i := OccursSomewhere(rs, key);
        OccursTakes(xid, rs[i], key);
      }
    }
    if PathsFit(order, watchers, limit) {
      forall i | 0 <= i < |rs| ensures PacketSize(xid, rs[i]) <= limit {
        if PathCount(rs[i]) < 2 {
          var key := SinglePath(xid, rs[i]);
          OccursCounts(rs, i, key);
        }
      }
    }
  }

  // ----- the three lists of the requests

  /** How often a path stands in a list, over all requests. */
  function InData(rs: seq<Request>, path: seq<byte>): nat
  {
    if rs == [] then 0 else InData(rs[..|rs| - 1], path) + multiset(Last(rs).data)[path]
  }

  function InExist(rs: seq<Request>, path: seq<byte>): nat
  {
    if rs == [] then 0 else InExist(rs[..|rs| - 1], path) + multiset(Last(rs).exist)[path]
  }

  function InChild(rs: seq<Request>, path: seq<byte>): nat
  {
    if rs == [] then 0 else InChild(rs[..|rs| - 1], path) + multiset(Last(rs).child)[path]
  }

  lemma {:induction false} ListsOf(rs: seq<Request>, path: seq<byte>)
    ensures InData(rs, path) == OccursAll(rs, Key(path, Data))
    ensures InExist(rs, path) == OccursAll(rs, Key(path, Exist))
    ensures InChild(rs, path) == OccursAll(rs, Key(path, Child))
  {
    if rs != [] {
      ListsOf(rs[..|rs| - 1], path);
    }
  }

  /** A path with data watchers stands once in a data list, and so on for each kind;
      no list holds anything else. */
  lemma {:induction false} PartitionByList<C>(rs: seq<Request>, order: seq<Key>, watchers: map<Key, seq<C>>, path: seq<byte>)
    requires Partition(rs, order, watchers) && forall key :: key in order <==> key in watchers
    ensures InData(rs, path) == if Key(path, Data) in watchers && watchers[Key(path, Data)] != [] then 1 else 0
    ensures InExist(rs, path) == if Key(path, Exist) in watchers && watchers[Key(path, Exist)] != [] then 1 else 0
    ensures InChild(rs, path) == if Key(path, Child) in watchers && watchers[Key(path, Child)] != [] then 1 else 0
  {
    hide InData, InExist, InChild, OccursAll;
    ListsOf(rs, path);
  }

  /** The fields of a request on the wire: the zxid and the data, exist and child
      lists, in this order. */
  lemma {:induction false} BodyFields(r: Request)
    ensures Body(r).VStruct? && |Body(r).fields| == 4 && Body(r).fields[0] == VInt64(r.zxid)
    ensures forall k :: 1 <= k < 4 ==> Body(r).fields[k].VSlice?
    ensures Body(r).fields[1].elems == seq(|r.data|, i requires 0 <= i < |r.data| => VString(r.data[i]))
    ensures Body(r).fields[2].elems == seq(|r.exist|, i requires 0 <= i < |r.exist| => VString(r.exist[i]))
    ensures Body(r).fields[3].elems == seq(|r.child|, i requires 0 <= i < |r.child| => VString(r.child[i]))
  {
  }

  function TotalSize(rs: seq<Request>, xid: int32): nat
  {
    if rs == [] then 0 else TotalSize(rs[..|rs| - 1], xid) + PacketSize(xid, Last(rs))
  }

  /** Two requests in a row take more than the limit, so the number of requests is
      bounded by the total size. */
  lemma {:induction false} RequestCount(rs: seq<Request>, xid: int32, limit: nat)
    requires Bounded(rs, xid, limit)
    ensures |rs| / 2 * (limit + OVERHEAD + 1) <= TotalSize(rs, xid)
  {
    hide PacketSize, PathCount;
    if |rs| >= 2 {
      var shorter := rs[..|rs| - 2];
      ShorterBounded(rs, xid, limit);
      RequestCount(shorter, xid, limit);
      assert rs[..|rs| - 1][..|rs| - 2] == shorter;
      assert |rs| / 2 == |shorter| / 2 + 1;
      assert |rs| / 2 * (limit + OVERHEAD + 1) == |shorter| / 2 * (limit + OVERHEAD + 1) + (limit + OVERHEAD + 1);
    }
  }

  lemma {:induction false} ShorterBounded(rs: seq<Request>, xid: int32, limit: nat)
    requires Bounded(rs, xid, limit) && |rs| >= 2
    ensures Bounded(rs[..|rs| - 2], xid, limit)
    ensures PacketSize(xid, rs[|rs| - 2]) + PacketSize(xid, rs[|rs| - 1]) > limit + OVERHEAD
  {
    hide PacketSize, PathCount;
    var shorter := rs[..|rs| - 2];
    assert forall i :: 0 <= i < |shorter| ==> shorter[i] == rs[i];
    var i := |rs| - 2;
    assert PacketSize(xid, rs[i]) + PacketSize(xid, rs[i + 1]) - OVERHEAD > limit;
  }
}
