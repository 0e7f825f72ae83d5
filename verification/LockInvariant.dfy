/** What every step of the lock protocol keeps. */
module LockInvariant {
  import opened Text
  import opened LockNames
  import opened LockScan
  import opened LockProtocol

  // ----- the server's history

  /** Sequence numbers grow along the history and stay below the counter. */
  ghost predicate Ordered(counter: nat, h: seq<Event>)
  {
    && (forall i :: 0 <= i < |h| && h[i].Created? ==> h[i].node.number < counter)
    && (forall i, j :: 0 <= i < j < |h| && h[i].Created? && h[j].Created? ==> h[i].node.number < h[j].node.number)
  }

  /** parseSeq reads a node's number from its name and from its path. */
  ghost predicate Named(dir: string, h: seq<Event>)
  {
    forall i :: 0 <= i < |h| && h[i].Created? ==> NamedNode(dir, h[i].node)
  }

  predicate NamedNode(dir: string, n: Node)
  {
    ParseSeq(n.name) == Some(n.number) && ParseSeq(dir + "/" + n.name) == Some(n.number)
  }

  lemma {:induction false} LiveWasCreated(h: seq<Event>, n: Node)
    requires n in Live(h)
    ensures Created(n) in h
  {
    if Last(h) != Created(n) {
      LiveWasCreated(h[..|h| - 1], n);
    }
  }

  lemma {:induction false} CreatedIndex(h: seq<Event>, n: Node) returns (i: nat)
    requires Created(n) in h
    ensures i < |h| && h[i] == Created(n)
  {
    i :| 0 <= i < |h| && h[i] == Created(n);
  }

  /** A node never comes back: what is live now was live at every prefix that
      contains its creation. */
  lemma {:induction false} LiveStable(counter: nat, h: seq<Event>, p: nat, n: Node)
    requires Ordered(counter, h) && p <= |h| && n in Live(h) && Created(n) in h[..p]
    ensures n in Live(h[..p])
  {
    if p == |h| {
      assert h[..p] == h;
    } else {
      var init := h[..|h| - 1];
      var i := CreatedIndex(h[..p], n);
      assert h[i] == Created(n) && Last(h) != Created(n);
      assert init[..p] == h[..p];
      LiveStable(counter, init, p, n);
    }
  }

  /** A server whose prefix contains the creation of n lists every live node
      with a smaller number: they were created earlier. */
  lemma {:induction false} EarlierInView(counter: nat, h: seq<Event>, p: nat, m: Node, n: Node)
    requires Ordered(counter, h) && p <= |h|
    requires m in Live(h) && m.number < n.number && Created(n) in h[..p]
    ensures m in Live(h[..p]) && m.name in View(h, p)
  {
    LiveWasCreated(h, m);
    var i := CreatedIndex(h, m);
    var j := CreatedIndex(h[..p], n);
    assert h[j] == Created(n);
    assert i < j && h[..p][i] == Created(m);
    LiveStable(counter, h, p, m);
  }

  lemma {:induction false} ViewedWasCreated(h: seq<Event>, p: nat, name: string) returns (m: Node)
    requires p <= |h| && name in View(h, p)
    ensures m in Live(h[..p]) && m.name == name && Created(m) in h
  {
    m :| m in Live(h[..p]) && m.name == name;
    LiveWasCreated(h[..p], m);
    assert h == h[..p] + h[p..];
  }

  // ----- one client

  predicate Bids(phase: Phase) { !phase.Idle? && !phase.Held? }

  /** prev names an earlier node of the history, and for as long as the client's
      own node lives no live node lies strictly between the two. */
  ghost predicate GoodPredecessor(h: seq<Event>, node: Node, prev: string)
  {
    exists m: Node :: Created(m) in h && m.name == prev && IsPredecessor(h, node, m)
  }

  ghost predicate IsPredecessor(h: seq<Event>, node: Node, m: Node)
  {
    && m.number < node.number
    && (node in Live(h) ==> forall k :: k in Live(h) && k.number < node.number ==> k.number <= m.number)
  }

  ghost predicate GoodPhase(h: seq<Event>, conn: Session, acquired: seq<nat>, phase: Phase)
  {
    && conn.seen <= |h|
    && (!phase.Idle? ==> Created(phase.node) in h)
    && (!phase.Idle? && phase.node in Live(h) ==> phase.node.session == conn.id)
    && (!phase.Idle? && !phase.Creating? && phase.node in Live(h) ==> Created(phase.node) in h[..conn.seen])
    && (phase.Watching? || phase.Waiting? ==> GoodPredecessor(h, phase.node, phase.prev))
    && (phase.Waiting? && phase.watch.Armed? ==> phase.prev in View(h, conn.seen))
    && (phase.Waiting? && phase.watch.Failed? ==> phase.node !in Live(h))
    && (Bids(phase) ==> phase.node.number !in acquired)
    && (phase.Held? && phase.node in Live(h) ==> phase.node.number in acquired)
  }

  /** Later nodes have larger numbers, so they never come between. */
  lemma {:induction false} PredecessorKeepsEvent(counter: nat, h: seq<Event>, e: Event, node: Node, prev: string)
    requires Ordered(counter, h + [e]) && Created(node) in h && GoodPredecessor(h, node, prev)
    ensures GoodPredecessor(h + [e], node, prev)
  {
    var h' := h + [e];
    assert h'[..|h'| - 1] == h;
    var m: Node :| Created(m) in h && m.name == prev && IsPredecessor(h, node, m);
    var i := CreatedIndex(h, node);
    assert h'[i] == Created(node) && h'[|h|] == e;
    assert IsPredecessor(h', node, m);
    assert Created(m) in h';
  }

  /** An event other than the client's own leaves its phase good. */
  lemma {:induction false} PhaseKeepsEvent(counter: nat, h: seq<Event>, e: Event, conn: Session, acquired: seq<nat>, phase: Phase)
    requires Ordered(counter, h + [e]) && GoodPhase(h, conn, acquired, phase)
    ensures GoodPhase(h + [e], conn, acquired, phase)
  {
    var h' := h + [e];
    assert h'[..|h'| - 1] == h;
    assert h'[..conn.seen] == h[..conn.seen];
    if !phase.Idle? {
      var i := CreatedIndex(h, phase.node);
      assert h'[i] == Created(phase.node);
      if phase.Watching? || phase.Waiting? {
        PredecessorKeepsEvent(counter, h, e, phase.node, phase.prev);
      }
    }
  }

  /** A newer view leaves the phase good once the due events are delivered. */
  lemma {:induction false} PhaseKeepsAdvance(h: seq<Event>, conn: Session, p: nat, acquired: seq<nat>, phase: Phase)
    requires GoodPhase(h, conn, acquired, phase) && conn.seen <= p <= |h|
    ensures GoodPhase(h, conn.(seen := p), acquired, Notified(phase, View(h, p)))
  {
    assert h[..p] == h[..conn.seen] + h[conn.seen..p];
  }

  lemma {:induction false} PhaseKeepsAcquire(h: seq<Event>, conn: Session, acquired: seq<nat>, n: nat, phase: Phase)
    requires GoodPhase(h, conn, acquired, phase) && (Bids(phase) ==> phase.node.number != n)
    ensures GoodPhase(h, conn, acquired + [n], phase)
  {
  }

  lemma {:induction false} HeldIsGood(h: seq<Event>, conn: Session, acquired: seq<nat>, n: Node)
    requires GoodPhase(h, conn, acquired, Listing(n))
    ensures GoodPhase(h, conn, acquired + [n.number], Held(n, false))
  {
    assert n.number in acquired + [n.number];
  }

  // ----- the whole state

  ghost predicate GoodAcquired(h: seq<Event>, counter: nat, acquired: seq<nat>)
  {
    && (forall i :: 0 <= i < |acquired| ==> acquired[i] < counter)
    && (forall i, m :: 0 <= i < |acquired| && m in Live(h) ==> acquired[i] <= m.number)
    && (forall i, j :: 0 <= i < j < |acquired| ==> acquired[i] < acquired[j])
  }

  ghost predicate Inv(s: State)
  {
    && Ordered(s.counter, s.history)
    && Named(s.dir, s.history)
    && (forall n :: n in Live(s.history) ==> n.session !in s.closed)
    && GoodAcquired(s.history, s.counter, s.acquired)
    && (forall k :: k in s.conns ==> s.conns[k].seen <= |s.history|)
    && (forall c :: c in s.clients ==> GoodClient(s, c))
    && (forall c, d :: c in s.clients && d in s.clients && c != d
          && !s.clients[c].phase.Idle? && !s.clients[d].phase.Idle?
          ==> s.clients[c].phase.node.number != s.clients[d].phase.node.number)
  }

  ghost predicate GoodClient(s: State, c: nat)
    requires c in s.clients
  {
    s.clients[c].conn in s.conns && GoodPhase(s.history, s.conns[s.clients[c].conn], s.acquired, s.clients[c].phase)
  }

  lemma {:induction false} InitInv(s: State)
    requires Init(s)
    ensures Inv(s)
  {
  }

  /** Clients other than `c` that did not change node keep their own numbers. */
  ghost predicate NodesKept(s: State, s': State)
  {
    s'.clients.Keys == s.clients.Keys
    && forall c :: c in s.clients ==>
         s'.clients[c].phase.Idle? || (!s.clients[c].phase.Idle? && s'.clients[c].phase.node == s.clients[c].phase.node)
  }

  lemma {:induction false} AdvancedInv(s: State, conn: nat, p: nat)
    requires Inv(s) && MayServe(s, conn, p)
    ensures Inv(Advanced(s, conn, p)) && NodesKept(s, Advanced(s, conn, p))
  {
    var s' := Advanced(s, conn, p);
    forall c | c in s'.clients ensures GoodClient(s', c) {
      assert GoodClient(s, c);
      if s.clients[c].conn == conn {
        PhaseKeepsAdvance(s.history, s.conns[conn], p, s.acquired, s.clients[c].phase);
      }
    }
  }

  /** Moving one client between phases of the same node is safe when the new
      phase is good. */
  lemma {:induction false} SetPhaseInv(s: State, c: nat, phase: Phase)
    requires Inv(s) && c in s.clients
    requires phase.Idle? || (!s.clients[c].phase.Idle? && phase.node == s.clients[c].phase.node)
    requires GoodPhase(s.history, s.conns[s.clients[c].conn], s.acquired, phase)
    ensures Inv(SetPhase(s, c, phase))
  {
    var s' := SetPhase(s, c, phase);
    forall d | d in s'.clients ensures GoodClient(s', d) {
      assert GoodClient(s, d);
    }
  }

  /** Appending an event that creates nothing. */
  lemma {:induction false} RemovalInv(s: State, e: Event, closed: set<nat>)
    requires Inv(s) && !e.Created?
    requires closed == if e.SessionClosed? then s.closed + {e.session} else s.closed
    ensures Inv(s.(history := s.history + [e], closed := closed))
  {
    var h' := s.history + [e];
    var s' := s.(history := h', closed := closed);
    assert h'[..|h'| - 1] == s.history;
    assert Live(h') <= Live(s.history);
    forall c | c in s'.clients ensures GoodClient(s', c) {
      assert GoodClient(s, c);
      PhaseKeepsEvent(s.counter, s.history, e, s.conns[s.clients[c].conn], s.acquired, s.clients[c].phase);
    }
  }

  lemma {:induction false} CreateInv(s: State, c: nat, guid: string, number: nat)
    requires Inv(s) && Enabled(s, CreateEffect(c, guid, number))
    ensures Inv(Apply(s, CreateEffect(c, guid, number)))
  {
    var s' := Apply(s, CreateEffect(c, guid, number));
    var h, h' := s.history, s'.history;
    assert h'[..|h'| - 1] == h;
    ParseSeqOfName(s.dir, guid, number);
    assert NamedNode(s.dir, Last(h').node);
    assert Live(h') == Live(h) + {Last(h').node};
    forall d | d in s'.clients ensures GoodClient(s', d) {
      CreateKeepsClient(s, c, guid, number, d);
    }
    NumbersBelowCounter(s);
  }

  lemma {:induction false} CreateKeepsClient(s: State, c: nat, guid: string, number: nat, d: nat)
    requires Inv(s) && Enabled(s, CreateEffect(c, guid, number)) && d in s.clients
    ensures GoodClient(Apply(s, CreateEffect(c, guid, number)), d)
  {
    var s' := Apply(s, CreateEffect(c, guid, number));
    assert GoodClient(s, d);
    if d == c {
      assert s'.history[|s.history|] == Created(s'.clients[c].phase.node);
    } else {
      PhaseKeepsEvent(s'.counter, s.history, Last(s'.history), s.conns[s.clients[d].conn], s.acquired, s.clients[d].phase);
    }
  }

  lemma {:induction false} NumbersBelowCounter(s: State)
    requires Inv(s)
    ensures forall d :: d in s.clients && !s.clients[d].phase.Idle? ==> s.clients[d].phase.node.number < s.counter
  {
    forall d | d in s.clients && !s.clients[d].phase.Idle?
      ensures s.clients[d].phase.node.number < s.counter
    {
      assert GoodClient(s, d);
    }
  }

  /** The heart of the recipe: a scan of a listing no older than the client's own
      create decides as if the listing were current. */
  lemma {:induction false} ScanIsCurrent(s: State, c: nat, p: nat, children: seq<string>, result: ScanResult)
    requires Inv(s) && Enabled(s, List(c, p, children, result))
    requires s.clients[c].phase.node in Live(s.history)
    ensures !result.Unparsable?
    ensures result.Lowest? ==> forall m :: m in Live(s.history) ==> s.clients[c].phase.node.number <= m.number
    ensures result.Predecessor? ==>
              forall m :: m in Live(s.history) && m.number < s.clients[c].phase.node.number ==>
                m.number <= ParseSeq(result.name).value
  {
    var n := s.clients[c].phase.node;
    var h, seen := s.history, s.conns[s.clients[c].conn].seen;
    assert GoodClient(s, c);
    assert h[..p] == h[..seen] + h[seen..p];
    ListingParses(s, p, children);
    var i := CreatedIndex(h, n);
    forall m | m in Live(h) && m.number < n.number
      ensures m.name in children && ParseSeq(m.name) == Some(m.number)
    {
      EarlierInView(s.counter, h, p, m, n);
      assert m.name in (set x | x in children);
      LiveWasCreated(h, m);
      var j := CreatedIndex(h, m);
      assert NamedNode(s.dir, m);
    }
    assert NamedNode(s.dir, n);
  }

  lemma {:induction false} ListingParses(s: State, p: nat, children: seq<string>)
    requires Inv(s) && p <= |s.history| && (set x | x in children) == View(s.history, p)
    ensures AllParse(children)
  {
    forall i | 0 <= i < |children| ensures ParseSeq(children[i]).Some? {
      assert children[i] in (set x | x in children);
      var m := ViewedWasCreated(s.history, p, children[i]);
      var j := CreatedIndex(s.history, m);
      assert NamedNode(s.dir, m);
    }
  }

  lemma {:induction false} ListInv(s: State, c: nat, p: nat, children: seq<string>, result: ScanResult)
    requires Inv(s) && Enabled(s, List(c, p, children, result))
    ensures Inv(Apply(s, List(c, p, children, result)))
  {
    var n := s.clients[c].phase.node;
    var viewed := Advanced(s, s.clients[c].conn, p);
    var conn := viewed.conns[s.clients[c].conn];
    assert GoodClient(s, c);
    AdvancedInv(s, s.clients[c].conn, p);
    assert GoodClient(viewed, c);
    if n in Live(s.history) {
      ScanIsCurrent(s, c, p, children, result);
    }
    match result {
      case Unparsable =>
        SetPhaseInv(viewed, c, Idle);
      case Predecessor(prev) =>
        PredecessorIsGood(s, c, p, children, prev);
        SetPhaseInv(viewed, c, Watching(n, prev));
      case Lowest =>
        AcquireInv(viewed, c);
    }
  }

  lemma {:induction false} PredecessorIsGood(s: State, c: nat, p: nat, children: seq<string>, prev: string)
    requires Inv(s) && Enabled(s, List(c, p, children, Predecessor(prev)))
    ensures GoodPredecessor(s.history, s.clients[c].phase.node, prev)
  {
    var n := s.clients[c].phase.node;
    assert GoodClient(s, c);
    if n in Live(s.history) {
      ScanIsCurrent(s, c, p, children, Predecessor(prev));
    }
    assert prev in (set x | x in children);
    var m := ViewedWasCreated(s.history, p, prev);
    var i := CreatedIndex(s.history, m);
    var j := CreatedIndex(s.history, n);
    assert NamedNode(s.dir, m) && NamedNode(s.dir, n);
    assert IsPredecessor(s.history, n, m);
  }

  /** The least live number, when it is new to the log, extends it in order. */
  lemma {:induction false} AcquiredGrows(counter: nat, h: seq<Event>, acquired: seq<nat>, n: Node)
    requires Ordered(counter, h) && GoodAcquired(h, counter, acquired)
    requires n in Live(h) && n.number !in acquired && forall m :: m in Live(h) ==> n.number <= m.number
    ensures GoodAcquired(h, counter, acquired + [n.number])
  {
    LiveWasCreated(h, n);
    var i := CreatedIndex(h, n);
    var log := acquired + [n.number];
    forall j | 0 <= j < |acquired| ensures acquired[j] < n.number {
      assert acquired[j] in acquired;
    }
  }

  lemma {:induction false} AcquireInv(s: State, c: nat)
    requires Inv(s) && c in s.clients && s.clients[c].phase.Listing?
    requires s.clients[c].phase.node in Live(s.history) ==>
               forall m :: m in Live(s.history) ==> s.clients[c].phase.node.number <= m.number
    ensures var n := s.clients[c].phase.node;
            Inv(SetPhase(s, c, Held(n, false)).(
                  acquired := if n in Live(s.history) then s.acquired + [n.number] else s.acquired))
  {
    var n := s.clients[c].phase.node;
    assert GoodClient(s, c);
    if n !in Live(s.history) {
      SetPhaseInv(s, c, Held(n, false));
    } else {
      var s' := SetPhase(s, c, Held(n, false)).(acquired := s.acquired + [n.number]);
      AcquiredGrows(s.counter, s.history, s.acquired, n);
      forall d | d in s'.clients ensures GoodClient(s', d) {
        assert GoodClient(s, d);
        if d != c {
          PhaseKeepsAcquire(s.history, s.conns[s.clients[d].conn], s.acquired, n.number, s.clients[d].phase);
        } else {
          HeldIsGood(s.history, s.conns[s.clients[c].conn], s.acquired, n);
        }
      }
    }
  }

  /** Every step keeps the invariant. */
  lemma {:induction false} StepInv(s: State, step: Step)
    requires Inv(s) && Enabled(s, step)
    ensures Inv(Apply(s, step))
  {
    match step {
      case CreateEffect(c, guid, number) => CreateInv(s, c, guid, number);
      case List(c, p, children, result) => ListInv(s, c, p, children, result);
      case CreateReturn(c, p) => ReadInv(s, step, c, p);
      case GetW(c, p) => ReadInv(s, step, c, p);
      case Rearm(c, p) => ReadInv(s, step, c, p);
      case Advance(conn, p) => AdvancedInv(s, conn, p);
      case Wake(c) => LocalInv(s, step, c);
      case Abort(c) => LocalInv(s, step, c);
      case UnlockReturn(c) => LocalInv(s, step, c);
      case UnlockEffect(c) => UnlockInv(s, c);
      case CloseSession(conn) =>
        RemovalInv(s, SessionClosed(s.conns[conn].id), s.closed + {s.conns[conn].id});
      case Disconnect(conn) => DisconnectInv(s, conn);
      case LearnExpiry(conn) => LearnInv(s, conn);
    }
  }

  /** Steps that read at prefix p and then move one client. */
  lemma {:induction false} ReadInv(s: State, step: Step, c: nat, p: nat)
    requires Inv(s) && Enabled(s, step)
    requires step == CreateReturn(c, p) || step == GetW(c, p) || step == Rearm(c, p)
    ensures Inv(Apply(s, step))
  {
    var viewed := Advanced(s, s.clients[c].conn, p);
    assert GoodClient(s, c);
    AdvancedInv(s, s.clients[c].conn, p);
    assert GoodClient(viewed, c);
    SetPhaseInv(viewed, c, Apply(s, step).clients[c].phase);
  }

  lemma {:induction false} LocalInv(s: State, step: Step, c: nat)
    requires Inv(s) && Enabled(s, step)
    requires step == Wake(c) || step == Abort(c) || step == UnlockReturn(c)
    ensures Inv(Apply(s, step))
  {
    assert GoodClient(s, c);
    SetPhaseInv(s, c, Apply(s, step).clients[c].phase);
  }

  lemma {:induction false} UnlockInv(s: State, c: nat)
    requires Inv(s) && Enabled(s, UnlockEffect(c))
    ensures Inv(Apply(s, UnlockEffect(c)))
  {
    var released := s.clients[c].phase.(deleted := true);
    assert GoodClient(s, c);
    SetPhaseInv(s, c, released);
    RemovalInv(SetPhase(s, c, released), Deleted(released.node.number), s.closed);
  }

  lemma {:induction false} DisconnectInv(s: State, conn: nat)
    requires Inv(s) && Enabled(s, Disconnect(conn))
    ensures Inv(Apply(s, Disconnect(conn)))
  {
    var s' := Apply(s, Disconnect(conn));
    forall c | c in s'.clients ensures GoodClient(s', c) {
      assert GoodClient(s, c);
    }
  }

  /** After the client learns of the expiry its nodes are dead, so nothing is
      promised about how old its next view is. */
  lemma {:induction false} LearnInv(s: State, conn: nat)
    requires Inv(s) && Enabled(s, LearnExpiry(conn))
    ensures Inv(Apply(s, LearnExpiry(conn)))
  {
    var s' := Apply(s, LearnExpiry(conn));
    forall c | c in s'.clients ensures GoodClient(s', c) {
      assert GoodClient(s, c);
    }
  }

  lemma {:induction false} RunInv(states: seq<State>, steps: seq<Step>, i: nat)
    requires IsRun(states, steps) && i < |states|
    ensures Inv(states[i])
  {
    if i == 0 {
      InitInv(states[0]);
    } else {
      RunInv(states, steps, i - 1);
      StepInv(states[i - 1], steps[i - 1]);
    }
  }
}
