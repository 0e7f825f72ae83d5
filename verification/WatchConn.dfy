/** The watch methods of Conn (zk/conn.go:585-599, 884-903, 944-952): a map from
    path and kind to channels, proved to do to every channel what the watch
    history says. */
module WatchConn {
  import opened Text
  import opened Errors
  import opened Bytes
  import opened WatchKeys
  import opened WatchTable
  import SetWatches

  /** A channel of capacity 1. */
  datatype Channel = Channel(sent: seq<Event>, closed: bool)

  /** The open watches of a key, in registration order. */
  function OpenFor(ws: seq<Watch>, key: Key): seq<nat>
  {
    if ws == [] then []
    else
      OpenFor(ws[..|ws| - 1], key) +
      if Last(ws) == Watch(key, []) then [|ws| - 1] else []
  }

  lemma {:induction false} OpenForMember(ws: seq<Watch>, key: Key)
    ensures forall c: nat :: c in OpenFor(ws, key) <==> c < |ws| && ws[c] == Watch(key, [])
    ensures forall i :: 0 <= i < |OpenFor(ws, key)| ==> OpenFor(ws, key)[i] < |ws| && ws[OpenFor(ws, key)[i]] == Watch(key, [])
    ensures forall i, j :: 0 <= i < j < |OpenFor(ws, key)| ==> OpenFor(ws, key)[i] < OpenFor(ws, key)[j]
  {
    if ws != [] {
      OpenForMember(ws[..|ws| - 1], key);
    }
  }

  /** The table holds exactly the open watches, each under its own key. */
  ghost predicate TableIs(watchers: map<Key, seq<nat>>, ws: seq<Watch>)
  {
    && (forall key :: key in watchers ==> watchers[key] != [] && watchers[key] == OpenFor(ws, key))
    && (forall key :: key !in watchers ==> OpenFor(ws, key) == [])
  }

  predicate ChannelsAre(channels: seq<Channel>, ws: seq<Watch>)
  {
    && |channels| == |ws|
    && forall c :: 0 <= c < |ws| ==> channels[c] == Channel(ws[c].events, ws[c].events != [])
  }

  /** One-shot: a channel is in at most one entry, once, and it is in the table
      exactly while it is open and empty. */
  lemma {:induction false} OneShot(watchers: map<Key, seq<nat>>, channels: seq<Channel>, ws: seq<Watch>)
    requires TableIs(watchers, ws) && ChannelsAre(channels, ws)
    ensures forall a, b, i, j ::
              a in watchers && b in watchers && 0 <= i < |watchers[a]| && 0 <= j < |watchers[b]| && watchers[a][i] == watchers[b][j] ==>
              a == b && i == j
    ensures forall c: nat :: c < |channels| ==>
              ((exists key :: key in watchers && c in watchers[key]) <==> channels[c] == Channel([], false))
  {
    forall a, b, i, j |
      a in watchers && b in watchers && 0 <= i < |watchers[a]| && 0 <= j < |watchers[b]| && watchers[a][i] == watchers[b][j]
      ensures a == b && i == j
    {
      OpenForMember(ws, a);
      OpenForMember(ws, b);
      assert watchers[a][i] in OpenFor(ws, a) && watchers[b][j] in OpenFor(ws, b);
    }
    forall c: nat | c < |channels|
      ensures (exists key :: key in watchers && c in watchers[key]) <==> channels[c] == Channel([], false)
    {
      OpenForMember(ws, ws[c].key);
      if channels[c] == Channel([], false) {
        assert ws[c].key in watchers && c in watchers[ws[c].key];
      }
      forall key | key in watchers && c in watchers[key] ensures channels[c] == Channel([], false) {
        OpenForMember(ws, key);
      }
    }
  }

  /** Every open watch under one of the keys gets its event. */
  function Fired(ws: seq<Watch>, keys: set<Key>, event: Key -> Event): seq<Watch>
  {
    seq(|ws|, c requires 0 <= c < |ws| =>
      if ws[c].events == [] && ws[c].key in keys then ws[c].(events := [event(ws[c].key)]) else ws[c])
  }

  /** Firing one key after a set of keys. */
  lemma {:induction false} FiredMore(ws: seq<Watch>, keys: set<Key>, key: Key, event: Key -> Event)
    ensures Fired(Fired(ws, keys, event), {key}, event) == Fired(ws, keys + {key}, event)
  {
  }

  lemma {:induction false} FiredNone(ws: seq<Watch>, event: Key -> Event)
    ensures Fired(ws, {}, event) == ws
  {
  }

  /** Firing a key without open watches does nothing. */
  lemma {:induction false} FiredIdle(ws: seq<Watch>, key: Key, event: Key -> Event)
    requires OpenFor(ws, key) == []
    ensures Fired(ws, {key}, event) == ws
  {
    OpenForMember(ws, key);
    forall c | 0 <= c < |ws| && ws[c].key == key ensures ws[c].events != [] {
      assert ws[c] == Watch(key, []) ==> c in OpenFor(ws, key);
    }
  }

  lemma {:induction false} OpenForFired(ws: seq<Watch>, keys: set<Key>, event: Key -> Event, key: Key)
    ensures OpenFor(Fired(ws, keys, event), key) == if key in keys then [] else OpenFor(ws, key)
  {
    if ws != [] {
      var front := ws[..|ws| - 1];
      OpenForFired(front, keys, event, key);
      assert Fired(ws, keys, event)[..|ws| - 1] == Fired(front, keys, event);
    }
  }

  /** Deleting the fired key keeps the table right. */
  lemma {:induction false} FiredTable(watchers: map<Key, seq<nat>>, ws: seq<Watch>, key: Key, event: Key -> Event)
    requires TableIs(watchers, ws)
    ensures TableIs(watchers - {key}, Fired(ws, {key}, event))
  {
    forall k ensures OpenFor(Fired(ws, {key}, event), k) == if k == key then [] else OpenFor(ws, k) {
      OpenForFired(ws, {key}, event, k);
    }
  }

  /** Firing every key of the table empties it. */
  lemma {:induction false} FiredAll(watchers: map<Key, seq<nat>>, ws: seq<Watch>, event: Key -> Event)
    requires TableIs(watchers, ws)
    ensures TableIs(map[], Fired(ws, watchers.Keys, event))
    ensures forall c :: 0 <= c < |ws| && ws[c].events == [] ==> ws[c].key in watchers
  {
    forall k ensures OpenFor(Fired(ws, watchers.Keys, event), k) == [] {
      OpenForFired(ws, watchers.Keys, event, k);
    }
    forall c | 0 <= c < |ws| && ws[c].events == [] ensures ws[c].key in watchers {
      OpenForMember(ws, ws[c].key);
    }
  }

  lemma {:induction false} RegisteredTable(watchers: map<Key, seq<nat>>, ws: seq<Watch>, key: Key)
    requires TableIs(watchers, ws)
    ensures var old_ := if key in watchers then watchers[key] else [];
            TableIs(watchers[key := old_ + [|ws|]], After(ws, Register(key)))
  {
    var after := After(ws, Register(key));
    assert after[..|ws|] == ws;
    forall k ensures OpenFor(after, k) == OpenFor(ws, k) + if k == key then [|ws|] else [] {
    }
  }

  /** What sending the event on the channels of one key does to all channels. */
  lemma {:induction false} FiredChannels(before: seq<Channel>, after: seq<Channel>, ws: seq<Watch>, key: Key, event: Key -> Event)
    requires ChannelsAre(before, ws) && |after| == |before|
    requires forall c: nat :: c < |before| ==>
               after[c] == if c in OpenFor(ws, key) then Channel([event(key)], true) else before[c]
    ensures ChannelsAre(after, Fired(ws, {key}, event))
  {
    OpenForMember(ws, key);
    forall c | 0 <= c < |ws| ensures after[c] == Channel(Fired(ws, {key}, event)[c].events, Fired(ws, {key}, event)[c].events != []) {
      assert ws[c].events == [] && ws[c].key == key ==> ws[c] == Watch(key, []);
    }
  }

  lemma {:induction false} InvalidatedAll(ws: seq<Watch>, keys: set<Key>, error: Error)
    requires forall c :: 0 <= c < |ws| && ws[c].events == [] ==> ws[c].key in keys
    ensures Fired(ws, keys, (k: Key) => Event(NotWatching, k.path, Some(error))) == After(ws, Invalidation(error))
  {
  }

  function KeysFor(path: seq<byte>, kinds: seq<Kind>): set<Key>
  {
    set k | k in kinds :: Key(path, k)
  }

  /** The requests ask for exactly the keys that still have an open watch, each once. */
  ghost predicate AsksForOpen(reqs: seq<SetWatches.Request>, ws: seq<Watch>)
  {
    forall key :: SetWatches.OccursAll(reqs, key) == if Watch(key, []) in ws then 1 else 0
  }

  lemma {:induction false} PartitionAsksForOpen(reqs: seq<SetWatches.Request>, order: seq<Key>, watchers: map<Key, seq<nat>>, ws: seq<Watch>)
    requires TableIs(watchers, ws) && SetWatches.Partition(reqs, order, watchers)
    requires forall key :: key in order <==> key in watchers
    ensures AsksForOpen(reqs, ws)
  {
    forall key ensures SetWatches.OccursAll(reqs, key) == if Watch(key, []) in ws then 1 else 0 {
      assert SetWatches.Wanted(order, watchers, key) <==> OpenFor(ws, key) != [];
      OpenForMember(ws, key);
      if OpenFor(ws, key) != [] {
        assert ws[OpenFor(ws, key)[0]] == Watch(key, []);
      }
    }
  }

  /** Every open watch has a path short enough for a request of its own. */
  ghost predicate OpenFit(ws: seq<Watch>, limit: int)
  {
    forall c :: 0 <= c < |ws| && ws[c].events == [] ==> SetWatches.OVERHEAD + 4 + |ws[c].key.path| <= limit
  }

  lemma {:induction false} OpenPathsFit(order: seq<Key>, watchers: map<Key, seq<nat>>, ws: seq<Watch>, limit: int)
    requires TableIs(watchers, ws) && forall key :: key in order <==> key in watchers
    ensures SetWatches.PathsFit(order, watchers, limit) <==> OpenFit(ws, limit)
  {
    hide OpenFor;
    if SetWatches.PathsFit(order, watchers, limit) {
      forall c | 0 <= c < |ws| && ws[c].events == [] ensures SetWatches.OVERHEAD + 4 + |ws[c].key.path| <= limit {
        OpenForMember(ws, ws[c].key);
        assert SetWatches.Wanted(order, watchers, ws[c].key);
      }
    }
    if OpenFit(ws, limit) {
      forall key | SetWatches.Wanted(order, watchers, key) ensures SetWatches.OVERHEAD + 4 + |key.path| <= limit {
        OpenForMember(ws, key);
        assert ws[watchers[key][0]] == Watch(key, []);
      }
    }
  }

  class WatchedConn {
    var watchers: map<Key, seq<nat>>
    var channels: seq<Channel>
    ghost var watches: seq<Watch>

    ghost predicate Valid()
      reads this
    {
      TableIs(watchers, watches) && ChannelsAre(channels, watches)
    }

    constructor ()
      ensures Valid() && watches == []
    {
      watchers, channels, watches := map[], [], [];
    }

    /** addWatcher. */
    method AddWatcher(path: seq<byte>, kind: Kind) returns (c: nat)
      requires Valid()
      modifies this
      ensures Valid() && watches == After(old(watches), Register(Key(path, kind)))
      ensures c == |old(watches)| && channels == old(channels) + [Channel([], false)]
    {
      ghost var before := watches;
      var key := Key(path, kind);
      RegisteredTable(watchers, before, key);
      c := |channels|;
      channels := channels + [Channel([], false)];
      watchers := watchers[key := (if key in watchers then watchers[key] else []) + [c]];
      watches := After(before, Register(key));
    }

    /** Send and close each listed channel: every send finds room and an open channel. */
    method Deliver(list: seq<nat>, event: Event)
      requires forall i :: 0 <= i < |list| ==> list[i] < |channels| && channels[list[i]] == Channel([], false)
      requires forall i, j :: 0 <= i < j < |list| ==> list[i] != list[j]
      modifies this`channels
      ensures |channels| == |old(channels)|
      ensures forall c: nat :: c < |channels| ==>
                channels[c] == if c in list then Channel([event], true) else old(channels)[c]
    {
      var n := 0;
      while n < |list|
        invariant 0 <= n <= |list| && |channels| == |old(channels)|
        invariant forall c: nat :: c < |channels| ==>
                    channels[c] == if c in list[..n] then Channel([event], true) else old(channels)[c]
      {
        var c := list[n];
        assert c !in list[..n];
        assert channels[c].sent == [] && !channels[c].closed;
        channels := channels[c := Channel(channels[c].sent + [event], true)];
        assert list[..n + 1] == list[..n] + [c];
        n := n + 1;
      }
      assert list[..n] == list;
    }

    /** What recvLoop does with a notification. */
    method HandleNotification(kind: EventType, path: seq<byte>)
      requires Valid()
      modifies this
      ensures Valid() && watches == After(old(watches), Notification(kind, path))
    {
      var ev := Event(kind, path, None);
      ghost var event := (k: Key) => ev;
      var wTypes := Fires(kind);
      var i := 0;
      FiredNone(watches, event);
      while i < |wTypes|
        invariant 0 <= i <= |wTypes| && Valid()
        invariant watches == Fired(old(watches), KeysFor(path, wTypes[..i]), event)
      {
        FireKey(Key(path, wTypes[i]), ev, event);
        FiredMore(old(watches), KeysFor(path, wTypes[..i]), Key(path, wTypes[i]), event);
        assert wTypes[..i + 1] == wTypes[..i] + [wTypes[i]];
        assert KeysFor(path, wTypes[..i + 1]) == KeysFor(path, wTypes[..i]) + {Key(path, wTypes[i])};
        i := i + 1;
      }
      assert wTypes[..i] == wTypes;
      assert watches == After(old(watches), Notification(kind, path));
    }

    /** Send the event to all open watches of a key. */
    method SendAll(list: seq<nat>, ghost key: Key, ev: Event, ghost event: Key -> Event)
      requires ChannelsAre(channels, watches) && list == OpenFor(watches, key) && event(key) == ev
      modifies this`channels, this`watches
      ensures ChannelsAre(channels, watches) && watches == Fired(old(watches), {key}, event)
    {
      hide OpenFor, Fired;
      OpenForMember(watches, key);
      Deliver(list, ev);
      FiredChannels(old(channels), channels, watches, key, event);
      watches := Fired(watches, {key}, event);
    }

    method FireKey(key: Key, ev: Event, ghost event: Key -> Event)
      requires Valid() && event(key) == ev
      modifies this
      ensures Valid() && watches == Fired(old(watches), {key}, event)
    {
      hide Fired, OpenFor, ChannelsAre;
      FiredTable(watchers, watches, key, event);
      if key in watchers {
        SendAll(watchers[key], key, ev, event);
        watchers := watchers - {key};
      } else {
        FiredIdle(watches, key, event);
      }
    }

    /** invalidateWatches. */
    method InvalidateWatches(error: Error)
      requires Valid()
      modifies this
      ensures Valid() && watchers == map[] && watches == After(old(watches), Invalidation(error))
    {
      hide Fired, OpenFor, ChannelsAre, After;
      ghost var event := (k: Key) => Event(NotWatching, k.path, Some(error));
      ghost var before := watches;
      var todo := watchers.Keys;
      FiredNone(before, event);
      FiredAll(watchers, before, event);
      assert watchers.Keys - todo == {};
      while todo != {}
        invariant todo <= watchers.Keys && watchers == old(watchers)
        invariant watches == Fired(before, watchers.Keys - todo, event)
        invariant ChannelsAre(channels, watches)
      {
        var key :| key in todo;
        OpenForFired(before, watchers.Keys - todo, event, key);
        SendAll(watchers[key], key, Event(NotWatching, key.path, Some(error)), event);
        FiredMore(before, watchers.Keys - todo, key, event);
        assert watchers.Keys - todo + {key} == watchers.Keys - (todo - {key});
        todo := todo - {key};
      }
      assert watchers.Keys - todo == watchers.Keys;
      InvalidatedAll(before, watchers.Keys, error);
      watchers := map[];
    }

    /** sendSetWatches: after a reconnect no open watch is forgotten and no fired
        one comes back, whatever the order in which the table is visited. */
    method SendSetWatches(order: seq<Key>, setWatchLimit: int, lastZxid: int64, ghost xid: int32) returns (reqs: seq<SetWatches.Request>)
      requires Valid()
      requires forall i, j :: 0 <= i < j < |order| ==> order[i] != order[j]
      requires forall key :: key in order <==> key in watchers
      ensures AsksForOpen(reqs, watches)
      ensures var limit := if setWatchLimit > 0 then setWatchLimit else 131072;
              SetWatches.AllWithin(reqs, xid, limit) <==> OpenFit(watches, limit)
      ensures SetWatches.Bounded(reqs, xid, if setWatchLimit > 0 then setWatchLimit else 131072)
      ensures forall i :: 0 <= i < |reqs| ==> reqs[i].zxid == lastZxid
    {
      reqs := SetWatches.Pack(order, watchers, setWatchLimit, lastZxid, xid);
      PartitionAsksForOpen(reqs, order, watchers, watches);
      OpenPathsFit(order, watchers, watches, if setWatchLimit > 0 then setWatchLimit else SetWatches.DEFAULT_LIMIT);
    }
  }
}
