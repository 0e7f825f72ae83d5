/** Whose node is still there: the session decides (zk/lock.go:45-150). */
module LockSessions {
  import opened Text
  import opened LockNames
  import opened LockScan
  import opened LockProtocol
  import opened LockInvariant
  import opened LockTheorems

  /** Unlock's delete took effect. */
  predicate Released(phase: Phase)
  {
    phase.Held? && phase.deleted
  }

  /** A client's node is there if and only if its session is open and it did not
      delete the node itself. */
  ghost predicate Decided(s: State, c: nat)
    requires c in s.clients
  {
    var ph := s.clients[c].phase;
    !ph.Idle? ==> (ph.node in Live(s.history) <==> ph.node.session !in s.closed && !Released(ph))
  }

  ghost predicate AllDecided(s: State)
  {
    forall c :: c in s.clients ==> Decided(s, c)
  }

  /** The step touches neither the history nor anybody's node. */
  ghost predicate Quiet(s: State, s': State)
  {
    && s'.history == s.history && s'.closed == s.closed && s'.clients.Keys == s.clients.Keys
    && forall c :: c in s.clients ==>
         s'.clients[c].phase.Idle? ||
         (!s.clients[c].phase.Idle? && s'.clients[c].phase.node == s.clients[c].phase.node &&
          Released(s'.clients[c].phase) == Released(s.clients[c].phase))
  }

  lemma {:induction false} QuietDecided(s: State, s': State)
    requires AllDecided(s) && Quiet(s, s')
    ensures AllDecided(s')
  {
    forall c | c in s'.clients ensures Decided(s', c) {
      assert Decided(s, c);
    }
  }

  lemma {:induction false} AdvancedQuiet(s: State, conn: nat, p: nat)
    requires MayServe(s, conn, p)
    ensures Quiet(s, Advanced(s, conn, p))
  {
    hide View;
  }

  lemma {:induction false} SetPhaseQuiet(s: State, m: State, c: nat, phase: Phase)
    requires Quiet(s, m) && c in m.clients
    requires phase.Idle? ||
             (!m.clients[c].phase.Idle? && phase.node == m.clients[c].phase.node && Released(phase) == Released(m.clients[c].phase))
    ensures Quiet(s, SetPhase(m, c, phase))
  {
  }

  /** A step that reads. */
  lemma {:induction false} ReadQuiet(s: State, step: Step)
    requires Enabled(s, step) && (step.CreateReturn? || step.GetW? || step.Rearm?)
    ensures Quiet(s, Apply(s, step))
  {
    hide View, Quiet, ParseSeq, Live;
    var viewed := Advanced(s, s.clients[step.c].conn, step.p);
    AdvancedQuiet(s, s.clients[step.c].conn, step.p);
    SetPhaseQuiet(s, viewed, step.c, Apply(s, step).clients[step.c].phase);
  }

  lemma {:induction false} ListQuiet(s: State, step: Step)
    requires Enabled(s, step) && step.List?
    ensures Quiet(s, Apply(s, step))
  {
    hide View, Quiet, ParseSeq, ScanSpec, Live;
    var viewed := Advanced(s, s.clients[step.c].conn, step.p);
    AdvancedQuiet(s, s.clients[step.c].conn, step.p);
    var phase := Apply(s, step).clients[step.c].phase;
    SetPhaseQuiet(s, viewed, step.c, phase);
    var quiet := SetPhase(viewed, step.c, phase);
    SameClients(s, quiet, Apply(s, step));
  }

  lemma {:induction false} SameClients(s: State, m: State, t: State)
    requires Quiet(s, m) && t.history == m.history && t.closed == m.closed && t.clients == m.clients
    ensures Quiet(s, t)
  {
  }

  lemma {:induction false} LocalQuiet(s: State, step: Step)
    requires Enabled(s, step) && (step.Wake? || step.Abort? || step.UnlockReturn? || step.Disconnect? || step.LearnExpiry?)
    ensures Quiet(s, Apply(s, step))
  {
    hide View, Live;
  }

  lemma {:induction false} CreateDecided(s: State, c: nat, guid: string, number: nat)
    requires Inv(s) && AllDecided(s) && Enabled(s, CreateEffect(c, guid, number))
    ensures AllDecided(Apply(s, CreateEffect(c, guid, number)))
  {
    var s' := Apply(s, CreateEffect(c, guid, number));
    var h, h' := s.history, s'.history;
    assert h'[..|h'| - 1] == h && Live(h') == Live(h) + {Last(h').node};
    NumbersBelowCounter(s);
    forall d | d in s'.clients ensures Decided(s', d) {
      assert Decided(s, d);
    }
  }

  lemma {:induction false} UnlockDecided(s: State, c: nat)
    requires Inv(s) && AllDecided(s) && Enabled(s, UnlockEffect(c))
    ensures AllDecided(Apply(s, UnlockEffect(c)))
  {
    var s' := Apply(s, UnlockEffect(c));
    var h, h' := s.history, s'.history;
    assert h'[..|h'| - 1] == h;
    forall d | d in s'.clients ensures Decided(s', d) {
      assert Decided(s, d);
    }
  }

  lemma {:induction false} CloseDecided(s: State, conn: nat)
    requires AllDecided(s) && Enabled(s, CloseSession(conn))
    ensures AllDecided(Apply(s, CloseSession(conn)))
  {
    var s' := Apply(s, CloseSession(conn));
    var h, h' := s.history, s'.history;
    assert h'[..|h'| - 1] == h;
    forall d | d in s'.clients ensures Decided(s', d) {
      assert Decided(s, d);
    }
  }

  lemma {:induction false} StepDecided(s: State, step: Step)
    requires Inv(s) && AllDecided(s) && Enabled(s, step)
    ensures AllDecided(Apply(s, step))
  {
    hide Quiet, Inv, AllDecided, View, ScanSpec, ParseSeq, Decided;
    match step {
      case CreateEffect(c, guid, number) => CreateDecided(s, c, guid, number);
      case UnlockEffect(c) => UnlockDecided(s, c);
      case CloseSession(conn) => CloseDecided(s, conn);
      case Advance(conn, p) =>
        AdvancedQuiet(s, conn, p);
        QuietDecided(s, Apply(s, step));
      case List(_, _, _, _) =>
        ListQuiet(s, step);
        QuietDecided(s, Apply(s, step));
      case _ =>
        if step.CreateReturn? || step.GetW? || step.Rearm? {
          ReadQuiet(s, step);
        } else {
          LocalQuiet(s, step);
        }
        QuietDecided(s, Apply(s, step));
    }
  }

  lemma {:induction false} InitDecided(s: State)
    requires Init(s)
    ensures AllDecided(s)
  {
  }

  lemma {:induction false} RunDecided(states: seq<State>, steps: seq<Step>, i: nat)
    requires IsRun(states, steps) && i < |states|
    ensures AllDecided(states[i])
  {
    hide Enabled, Apply, Inv, Decided;
    if i == 0 {
      InitDecided(states[0]);
    } else {
      RunDecided(states, steps, i - 1);
      RunInv(states, steps, i - 1);
      StepDecided(states[i - 1], steps[i - 1]);
    }
  }

  /** Lock has returned nil and Unlock's delete has not taken effect. */
  predicate Believes(s: State, c: nat)
  {
    c in s.clients && s.clients[c].phase.Held? && !s.clients[c].phase.deleted
  }

  /** In every run, a client that believes it has the lock still has its node if
      and only if its session is open. */
  lemma {:induction false} SessionDecides(states: seq<State>, steps: seq<Step>, i: nat, c: nat)
    requires IsRun(states, steps) && i < |states|
    ensures Holds(states[i], c) <==>
              Believes(states[i], c) && states[i].clients[c].phase.node.session !in states[i].closed
  {
    RunDecided(states, steps, i);
    if c in states[i].clients {
      assert Decided(states[i], c);
    }
  }

  /** So at most one client with an open session believes it has the lock. */
  lemma {:induction false} OpenSessionsExclude(states: seq<State>, steps: seq<Step>, i: nat, c: nat, d: nat)
    requires IsRun(states, steps) && i < |states| && c != d
    requires Believes(states[i], c) && Believes(states[i], d)
    ensures var s := states[i];
            s.clients[c].phase.node.session in s.closed || s.clients[d].phase.node.session in s.closed
  {
    SessionDecides(states, steps, i, c);
    SessionDecides(states, steps, i, d);
    if Holds(states[i], c) && Holds(states[i], d) {
      MutualExclusion(states, steps, i, c, d);
    }
  }

  // ----- two clients that believe

  lemma {:induction false} Extend(states: seq<State>, steps: seq<Step>, step: Step) returns (longer: seq<State>, more: seq<Step>)
    requires IsRun(states, steps) && Enabled(Last(states), step)
    ensures IsRun(longer, more) && Last(longer) == Apply(Last(states), step)
  {
    hide Enabled, Apply, Init;
    longer, more := states + [Apply(Last(states), step)], steps + [step];
  }

  function LockNode(n: nat): Node
    requires n < INT32_LIMIT
  {
    Node(n, NodeName("", n), n)
  }

  /** What a client's own steps leave alone. */
  ghost predicate OthersKept(s: State, t: State, c: nat)
    requires At(s, c)
  {
    && t.closed == s.closed && t.dir == s.dir && t.clients.Keys == s.clients.Keys && t.conns.Keys == s.conns.Keys
    && (forall d :: d in s.clients && d != c && !s.clients[d].phase.Waiting? ==> t.clients[d] == s.clients[d])
    && (forall k :: k in s.conns && k != s.clients[c].conn ==> t.conns[k] == s.conns[k])
    && t.clients[c].conn == s.clients[c].conn
  }

  /** With an empty lock directory a client creates its node and takes the lock. */
  lemma {:induction false} TakesLock(states: seq<State>, steps: seq<Step>, c: nat, n: nat) returns (longer: seq<State>, more: seq<Step>)
    requires IsRun(states, steps) && n < INT32_LIMIT
    requires var s := Last(states);
             && At(s, c) && s.clients[c].phase.Idle? && s.conns[s.clients[c].conn].id == n && n !in s.closed
             && s.counter == n && Live(s.history) == {} && s.conns[s.clients[c].conn].seen <= |s.history|
    ensures IsRun(longer, more)
    ensures var s, t := Last(states), Last(longer);
            && t.history == s.history + [Created(LockNode(n))] && t.counter == n + 1
            && OthersKept(s, t, c) && t.clients[c].phase == Held(LockNode(n), false)
            && t.conns[t.clients[c].conn].id == n
  {
    hide ParseSeq, Live, Init, NodeName;
    var s := Last(states);
    LiveOne(s.history, LockNode(n));
    longer, more := Extend(states, steps, CreateEffect(c, "", n));
    var p := |s.history| + 1;
    assert Last(longer).history[..p] == Last(longer).history;
    ParseSeqOfName(s.dir, "", n);
    longer, more := Extend(longer, more, CreateReturn(c, p));
    longer, more := Extend(longer, more, List(c, p, [NodeName("", n)], Lowest));
  }

  lemma {:induction false} LiveOne(h: seq<Event>, n: Node)
    requires Live(h) == {}
    ensures Live(h + [Created(n)]) == {n}
    ensures Live(h + [Created(n)] + [SessionClosed(n.session)]) == {}
  {
    assert (h + [Created(n)])[..|h|] == h;
    assert (h + [Created(n)] + [SessionClosed(n.session)])[..|h| + 1] == h + [Created(n)];
  }

  lemma {:induction false} Starts() returns (states: seq<State>, steps: seq<Step>)
    ensures IsRun(states, steps)
    ensures var s := Last(states);
            && s.history == [] && Live(s.history) == {} && s.counter == 0 && s.closed == {}
            && At(s, 0) && At(s, 1) && s.clients[0].phase.Idle? && s.clients[1] == Client(1, Idle)
            && s.conns[s.clients[0].conn] == Session(0, 0) && s.conns[1] == Session(1, 0) && s.clients[0].conn == 0
  {
    var conns := map[0 := Session(0, 0), 1 := Session(1, 0)];
    states, steps := [State("/lock", [], 0, 2, {}, conns, map[0 := Client(0, Idle), 1 := Client(1, Idle)], [])], [];
  }

  /** The first client's session is closed by the server and the client has not
      learned of it: the lock directory is empty again. */
  lemma {:induction false} FirstGone() returns (states: seq<State>, steps: seq<Step>)
    ensures IsRun(states, steps)
    ensures var s := Last(states);
            && Live(s.history) == {} && s.counter == 1 && s.closed == {0}
            && At(s, 0) && At(s, 1) && Believes(s, 0) && s.clients[1] == Client(1, Idle) && s.conns[1] == Session(1, 0)
  {
    hide Live, NodeName;
    states, steps := Starts();
    LiveOne(Last(states).history, LockNode(0));
    states, steps := TakesLock(states, steps, 0, 0);
    states, steps := Extend(states, steps, CloseSession(0));
  }

  /** Without the condition on sessions mutual exclusion fails: two clients believe
      they have the lock. */
  lemma {:induction false} TwoBelieve() returns (states: seq<State>, steps: seq<Step>)
    ensures IsRun(states, steps) && Believes(Last(states), 0) && Believes(Last(states), 1)
  {
    hide Live, NodeName;
    states, steps := FirstGone();
    states, steps := TakesLock(states, steps, 1, 1);
  }
}
