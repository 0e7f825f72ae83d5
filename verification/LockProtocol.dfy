/** The lock recipe (zk/lock.go:45-150) run by any number of clients against a
    replicated server, as a step system.

    The server is a growing history of events on the lock directory.  A session
    reads from some prefix of that history, never an older one than it has seen
    (the client sends the last zxid it saw, zk/conn.go:685-691 and 909-911), so a
    listing may be stale.  Sessions may be closed by the server at any moment, and
    the client learns of it later, or never. */
module LockProtocol {
  import opened Text
  import opened LockNames
  import opened LockScan

  /** An ephemeral sequential child of the lock directory. */
  datatype Node = Node(number: nat, name: string, session: nat)

  datatype Event = Created(node: Node) | Deleted(number: nat) | SessionClosed(session: nat)

  /** The children that exist after a history of events. */
  ghost function Live(h: seq<Event>): set<Node>
  {
    if h == [] then {}
    else
      var before := Live(h[..|h| - 1]);
      match Last(h)
      case Created(n) => before + {n}
      case Deleted(k) => set n | n in before && n.number != k
      case SessionClosed(s) => set n | n in before && n.session != s
  }

  ghost function Names(nodes: set<Node>): set<string>
  {
    set n | n in nodes :: n.name
  }

  /** The names a server at prefix `p` of the history lists. */
  ghost function View(h: seq<Event>, p: nat): set<string>
    requires p <= |h|
  {
    Names(Live(h[..p]))
  }

  /** A data watch: set at the server, waiting to be set again after a
      reconnect, or its channel holds a node event or an error event. */
  datatype WatchState = Armed | Rearming | Fired | Failed

  /** Where one `Lock` value is in its Lock/Unlock code. */
  datatype Phase =
    | Idle
    | Creating(node: Node)                                    // the create took effect, its reply is outstanding
    | Listing(node: Node)                                     // about to list the children
    | Watching(node: Node, prev: string)                      // about to call GetW on prev
    | Waiting(node: Node, prev: string, watch: WatchState)    // blocked on the watch channel
    | Held(node: Node, deleted: bool)                         // Lock returned nil; deleted: Unlock's delete took effect

  datatype Client = Client(conn: nat, phase: Phase)

  /** One Conn: its current session and the prefix that session has seen. */
  datatype Session = Session(id: nat, seen: nat)

  datatype State = State(
    dir: string,                   // the lock path
    history: seq<Event>,
    counter: nat,                  // the server's next sequence number is at least this
    nextSession: nat,
    closed: set<nat>,              // sessions the server has closed
    conns: map<nat, Session>,
    clients: map<nat, Client>,
    acquired: seq<nat>)            // numbers in order of acquisition, for nodes live at that moment

  datatype Step =
    | CreateEffect(c: nat, guid: string, number: nat)
    | CreateReturn(c: nat, p: nat)
    | List(c: nat, p: nat, children: seq<string>, result: ScanResult)
    | GetW(c: nat, p: nat)
    | Wake(c: nat)
    | Abort(c: nat)
    | UnlockEffect(c: nat)
    | UnlockReturn(c: nat)
    | Advance(conn: nat, p: nat)
    | Disconnect(conn: nat)
    | Rearm(c: nat, p: nat)
    | CloseSession(conn: nat)
    | LearnExpiry(conn: nat)

  ghost predicate Init(s: State)
  {
    && s.history == [] && s.closed == {} && s.acquired == []
    && (forall k :: k in s.conns ==> s.conns[k].seen == 0 && s.conns[k].id < s.nextSession)
    && (forall j, k :: j in s.conns && k in s.conns && s.conns[j].id == s.conns[k].id ==> j == k)
    && (forall c :: c in s.clients ==> s.clients[c].phase == Idle && s.clients[c].conn in s.conns)
  }

  /** A server may answer `conn` from prefix p. */
  predicate MayServe(s: State, conn: nat, p: nat)
  {
    conn in s.conns && s.conns[conn].seen <= p <= |s.history|
  }

  predicate At(s: State, c: nat)
  {
    c in s.clients && s.clients[c].conn in s.conns
  }

  function Path(s: State, node: Node): string
  {
    s.dir + "/" + node.name
  }

  ghost predicate Enabled(s: State, step: Step)
  {
    match step
    case CreateEffect(c, guid, number) =>
      && At(s, c) && s.clients[c].phase.Idle?
      && s.conns[s.clients[c].conn].id !in s.closed
      && s.counter <= number < INT32_LIMIT
    case CreateReturn(c, p) =>
      // a direct reply, or a listing that shows the protected node
      && At(s, c) && s.clients[c].phase.Creating?
      && MayServe(s, s.clients[c].conn, p)
      && Created(s.clients[c].phase.node) in s.history[..p]
    case List(c, p, children, result) =>
      && At(s, c) && s.clients[c].phase.Listing?
      && MayServe(s, s.clients[c].conn, p)
      && (set x | x in children) == View(s.history, p)
      && ParseSeq(Path(s, s.clients[c].phase.node)).Some?
      && ScanSpec(children, ParseSeq(Path(s, s.clients[c].phase.node)).value, result)
    case GetW(c, p) =>
      At(s, c) && s.clients[c].phase.Watching? && MayServe(s, s.clients[c].conn, p)
    case Wake(c) =>
      At(s, c) && s.clients[c].phase.Waiting? && (s.clients[c].phase.watch.Fired? || s.clients[c].phase.watch.Failed?)
    case Abort(c) =>
      At(s, c) && (s.clients[c].phase.Creating? || s.clients[c].phase.Listing? || s.clients[c].phase.Watching?)
    case UnlockEffect(c) =>
      At(s, c) && s.clients[c].phase.Held? && s.clients[c].phase.node in Live(s.history)
    case UnlockReturn(c) =>
      At(s, c) && s.clients[c].phase.Held? && s.clients[c].phase.deleted
    case Advance(conn, p) =>
      MayServe(s, conn, p)
    case Disconnect(conn) =>
      conn in s.conns
    case Rearm(c, p) =>
      && At(s, c) && s.clients[c].phase.Waiting? && s.clients[c].phase.watch.Rearming?
      && MayServe(s, s.clients[c].conn, p)
    case CloseSession(conn) =>
      conn in s.conns && s.conns[conn].id !in s.closed
    case LearnExpiry(conn) =>
      conn in s.conns && s.conns[conn].id in s.closed
  }

  /** A server tells the session of every watched node that is gone at the
      prefix it now serves before it shows that prefix. */
  function Notified(phase: Phase, view: set<string>): Phase
  {
    if phase.Waiting? && phase.watch.Armed? && phase.prev !in view then phase.(watch := Fired) else phase
  }

  function Disconnected(phase: Phase): Phase
  {
    if phase.Waiting? && phase.watch.Armed? then phase.(watch := Rearming) else phase
  }

  /** invalidateWatches: every watch of the lost session gets an error event. */
  function Invalidated(phase: Phase): Phase
  {
    if phase.Waiting? && (phase.watch.Armed? || phase.watch.Rearming?) then phase.(watch := Failed) else phase
  }

  function SetPhase(s: State, c: nat, phase: Phase): State
    requires c in s.clients
  {
    s.(clients := s.clients[c := s.clients[c].(phase := phase)])
  }

  ghost function Advanced(s: State, conn: nat, p: nat): State
    requires MayServe(s, conn, p)
  {
    s.(conns := s.conns[conn := s.conns[conn].(seen := p)],
       clients := map c | c in s.clients ::
         if s.clients[c].conn == conn
         then s.clients[c].(phase := Notified(s.clients[c].phase, View(s.history, p)))
         else s.clients[c])
  }

  ghost function Apply(s: State, step: Step): State
    requires Enabled(s, step)
  {
    match step
    case CreateEffect(c, guid, number) =>
      var node := Node(number, NodeName(guid, number), s.conns[s.clients[c].conn].id);
      SetPhase(s, c, Creating(node)).(history := s.history + [Created(node)], counter := number + 1)
    case CreateReturn(c, p) =>
      var node := s.clients[c].phase.node;
      SetPhase(Advanced(s, s.clients[c].conn, p), c, if ParseSeq(Path(s, node)).None? then Idle else Listing(node))
    case List(c, p, children, result) =>
      var node := s.clients[c].phase.node;
      var viewed := Advanced(s, s.clients[c].conn, p);
      (match result
       case Unparsable => SetPhase(viewed, c, Idle)
       case Lowest => SetPhase(viewed, c, Held(node, false)).(
           acquired := if node in Live(s.history) then s.acquired + [node.number] else s.acquired)
       case Predecessor(prev) => SetPhase(viewed, c, Watching(node, prev)))
    case GetW(c, p) =>
      var ph := s.clients[c].phase;
      SetPhase(Advanced(s, s.clients[c].conn, p), c,
               if ph.prev in View(s.history, p) then Waiting(ph.node, ph.prev, Armed) else Listing(ph.node))
    case Wake(c) =>
      SetPhase(s, c, if s.clients[c].phase.watch.Fired? then Listing(s.clients[c].phase.node) else Idle)
    case Abort(c) =>
      SetPhase(s, c, Idle)
    case UnlockEffect(c) =>
      SetPhase(s, c, s.clients[c].phase.(deleted := true)).(
        history := s.history + [Deleted(s.clients[c].phase.node.number)])
    case UnlockReturn(c) =>
      SetPhase(s, c, Idle)
    case Advance(conn, p) =>
      Advanced(s, conn, p)
    case Disconnect(conn) =>
      s.(clients := map c | c in s.clients ::
           if s.clients[c].conn == conn then s.clients[c].(phase := Disconnected(s.clients[c].phase)) else s.clients[c])
    case Rearm(c, p) =>
      var ph := s.clients[c].phase;
      SetPhase(Advanced(s, s.clients[c].conn, p), c, ph.(watch := if ph.prev in View(s.history, p) then Armed else Fired))
    case CloseSession(conn) =>
      s.(history := s.history + [SessionClosed(s.conns[conn].id)], closed := s.closed + {s.conns[conn].id})
    case LearnExpiry(conn) =>
      s.(conns := s.conns[conn := Session(s.nextSession, 0)],
         nextSession := s.nextSession + 1,
         clients := map c | c in s.clients ::
           if s.clients[c].conn == conn then s.clients[c].(phase := Invalidated(s.clients[c].phase)) else s.clients[c])
  }

  /** A run: states[0] is initial and steps[i] leads from states[i] to states[i+1]. */
  ghost predicate IsRun(states: seq<State>, steps: seq<Step>)
  {
    && |states| == |steps| + 1
    && Init(states[0])
    && forall i :: 0 <= i < |steps| ==> Enabled(states[i], steps[i]) && states[i + 1] == Apply(states[i], steps[i])
  }
}
