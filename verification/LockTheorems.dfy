/** What the lock recipe promises, over every run of any number of clients. */
module LockTheorems {
  import opened Text
  import opened LockNames
  import opened LockScan
  import opened LockProtocol
  import opened LockInvariant

  /** Lock has returned nil, Unlock has not, and the node is still there. */
  ghost predicate Holds(s: State, c: nat)
  {
    c in s.clients && s.clients[c].phase.Held? && s.clients[c].phase.node in Live(s.history)
  }

  /** The client has a live node and is still on its way to the lock. */
  ghost predicate Contends(s: State, c: nat)
  {
    c in s.clients && Bids(s.clients[c].phase) && s.clients[c].phase.node in Live(s.history)
  }

  ghost predicate Blocked(s: State, c: nat)
  {
    c in s.clients && s.clients[c].phase.Waiting?
  }

  /** Mutual exclusion: in every state of every run at most one client holds. */
  lemma {:induction false} MutualExclusion(states: seq<State>, steps: seq<Step>, i: nat, c: nat, d: nat)
    requires IsRun(states, steps) && i < |states|
    requires Holds(states[i], c) && Holds(states[i], d)
    ensures c == d
  {
    RunInv(states, steps, i);
    HolderIsLeast(states[i], c);
    HolderIsLeast(states[i], d);
  }

  lemma {:induction false} HolderIsLeast(s: State, c: nat)
    requires Inv(s) && Holds(s, c)
    ensures forall m :: m in Live(s.history) ==> s.clients[c].phase.node.number <= m.number
  {
    assert GoodClient(s, c);
  }

  // ----- first come, first served

  /** Step i is the listing after which a client with live node n takes the lock. */
  ghost predicate AcquiresAt(states: seq<State>, steps: seq<Step>, i: nat, n: Node)
    requires IsRun(states, steps) && i < |steps|
  {
    && steps[i].List? && steps[i].result.Lowest?
    && states[i].clients[steps[i].c].phase.node == n
    && n in Live(states[i].history)
  }

  lemma {:induction false} LogGrows(states: seq<State>, steps: seq<Step>, i: nat, j: nat)
    requires IsRun(states, steps) && i <= j < |states|
    ensures states[i].acquired <= states[j].acquired
  {
    if i < j {
      LogGrows(states, steps, i, j - 1);
      var prev := states[j - 1];
      assert states[j] == Apply(prev, steps[j - 1]);
    }
  }

  /** Over every run, acquisitions with a live node happen in strictly
      increasing order of sequence number. */
  lemma {:induction false} FirstComeFirstServed(states: seq<State>, steps: seq<Step>, i: nat, j: nat, m: Node, n: Node)
    requires IsRun(states, steps) && i < j < |steps|
    requires AcquiresAt(states, steps, i, m) && AcquiresAt(states, steps, j, n)
    ensures m.number < n.number
  {
    var before, after := states[j].acquired, states[j + 1].acquired;
    assert states[i + 1] == Apply(states[i], steps[i]) && states[j + 1] == Apply(states[j], steps[j]);
    LogGrows(states, steps, i + 1, j);
    RunInv(states, steps, j + 1);
    var k := |states[i].acquired|;
    assert states[i + 1].acquired[k] == m.number;
    assert before[k] == m.number && after[k] == m.number && after[|before|] == n.number;
  }

  // ----- no herd, no lost wakeup, no cycle

  lemma {:induction false} PredecessorNode(s: State, c: nat) returns (m: Node)
    requires Inv(s) && c in s.clients && (s.clients[c].phase.Watching? || s.clients[c].phase.Waiting?)
    ensures Created(m) in s.history && m.name == s.clients[c].phase.prev
    ensures IsPredecessor(s.history, s.clients[c].phase.node, m)
    ensures ParseSeq(m.name) == Some(m.number)
  {
    assert GoodClient(s, c);
    var ph := s.clients[c].phase;
    m :| Created(m) in s.history && m.name == ph.prev && IsPredecessor(s.history, ph.node, m);
    var i := CreatedIndex(s.history, m);
    assert NamedNode(s.dir, m);
  }

  /** No herd: two blocked clients with live nodes watch different nodes, so a
      deletion wakes at most one of them. */
  lemma {:induction false} NoHerd(states: seq<State>, steps: seq<Step>, i: nat, c: nat, d: nat)
    requires IsRun(states, steps) && i < |states| && c != d
    requires Blocked(states[i], c) && Contends(states[i], c)
    requires Blocked(states[i], d) && Contends(states[i], d)
    ensures states[i].clients[c].phase.prev != states[i].clients[d].phase.prev
  {
    RunInv(states, steps, i);
    var m := PredecessorNode(states[i], c);
    var k := PredecessorNode(states[i], d);
  }

  /** No lost wakeup: a blocked client has an event waiting in its channel, or its
      watch is being set again after a reconnect, or the node it watches exists in
      its server's view and precedes its own. */
  lemma {:induction false} NoLostWakeup(states: seq<State>, steps: seq<Step>, i: nat, c: nat)
    requires IsRun(states, steps) && i < |states| && Blocked(states[i], c)
    ensures var s := states[i]; var ph := s.clients[c].phase;
            && s.clients[c].conn in s.conns && s.conns[s.clients[c].conn].seen <= |s.history|
            && (ph.watch.Armed? ==> ph.prev in View(s.history, s.conns[s.clients[c].conn].seen))
            && ParseSeq(ph.prev).Some? && ParseSeq(ph.prev).value < ph.node.number
  {
    RunInv(states, steps, i);
    assert GoodClient(states[i], c);
    var m := PredecessorNode(states[i], c);
  }

  /** c is blocked on the node of d. */
  ghost predicate WaitsFor(s: State, c: nat, d: nat)
  {
    Blocked(s, c) && d in s.clients && !s.clients[d].phase.Idle? && s.clients[c].phase.prev == s.clients[d].phase.node.name
  }

  lemma {:induction false} WaitsForEarlier(s: State, c: nat, d: nat)
    requires Inv(s) && WaitsFor(s, c, d)
    ensures s.clients[d].phase.node.number < s.clients[c].phase.node.number
  {
    var m := PredecessorNode(s, c);
    assert GoodClient(s, d);
    var i := CreatedIndex(s.history, s.clients[d].phase.node);
    assert NamedNode(s.dir, s.clients[d].phase.node);
  }

  /** Each client of the chain is blocked on the node of the next one. */
  ghost predicate Chain(s: State, chain: seq<nat>)
  {
    |chain| > 1 && WaitsFor(s, chain[0], chain[1]) && (|chain| > 2 ==> Chain(s, chain[1..]))
  }

  lemma {:induction false} ChainDescends(s: State, chain: seq<nat>)
    requires Inv(s) && Chain(s, chain)
    ensures Blocked(s, chain[0]) && Last(chain) in s.clients && !s.clients[Last(chain)].phase.Idle?
    ensures s.clients[Last(chain)].phase.node.number < s.clients[chain[0]].phase.node.number
  {
    WaitsForEarlier(s, chain[0], chain[1]);
    if |chain| > 2 {
      ChainDescends(s, chain[1..]);
    }
  }

  /** No cyclic waiting, through any number of clients. */
  lemma {:induction false} NoCycle(states: seq<State>, steps: seq<Step>, i: nat, chain: seq<nat>)
    requires IsRun(states, steps) && i < |states| && Chain(states[i], chain)
    ensures chain[0] != Last(chain)
  {
    RunInv(states, steps, i);
    ChainDescends(states[i], chain);
  }

  // ----- the least live node gets the lock

  /** c contends and no live node is smaller. */
  ghost predicate NextInLine(s: State, c: nat)
  {
    Contends(s, c) && forall m :: m in Live(s.history) ==> s.clients[c].phase.node.number <= m.number
  }

  ghost predicate Leads(s: State, steps: seq<Step>, t: State)
    decreases |steps|
  {
    if steps == [] then s == t else Enabled(s, steps[0]) && Leads(Apply(s, steps[0]), steps[1..], t)
  }

  /** The step that takes the next in line closer to the lock: its server
      catches up, or it consumes what is already in its channel. */
  ghost function OwnStep(s: State, c: nat, children: seq<string>): Step
    requires c in s.clients && Bids(s.clients[c].phase)
  {
    var ph := s.clients[c].phase;
    if ph.Creating? then CreateReturn(c, |s.history|)
    else if ph.Watching? then GetW(c, |s.history|)
    else if ph.Listing? then List(c, |s.history|, children, Lowest)
    else if ph.watch.Armed? then Advance(s.clients[c].conn, |s.history|)
    else if ph.watch.Rearming? then Rearm(c, |s.history|)
    else Wake(c)
  }

  function Distance(phase: Phase): nat
  {
    match phase
    case Waiting(_, _, Armed) => 3
    case Waiting(_, _, Rearming) => 3
    case Waiting(_, _, _) => 2
    case Watching(_, _) => 2
    case Creating(_) => 2
    case Listing(_) => 1
    case _ => 0
  }

  lemma {:induction false} Enumerate(xs: set<string>) returns (list: seq<string>)
    ensures forall y :: y in list <==> y in xs
  {
    if xs == {} {
      list := [];
    } else {
      var x :| x in xs;
      var rest := Enumerate(xs - {x});
      list := [x] + rest;
    }
  }

  lemma {:induction false} GoneWhenLeast(s: State, c: nat)
    requires Inv(s) && NextInLine(s, c) && (s.clients[c].phase.Watching? || s.clients[c].phase.Waiting?)
    ensures s.clients[c].phase.prev !in View(s.history, |s.history|)
  {
    var h := s.history;
    var m := PredecessorNode(s, c);
    assert h[..|h|] == h;
    forall k | k in Live(h) ensures k.name != m.name {
      LiveWasCreated(h, k);
      var j := CreatedIndex(h, k);
      assert NamedNode(s.dir, k);
    }
  }

  lemma {:induction false} LeastScansLowest(s: State, c: nat, children: seq<string>)
    requires Inv(s) && NextInLine(s, c) && s.clients[c].phase.Listing?
    requires (set x | x in children) == View(s.history, |s.history|)
    ensures Enabled(s, List(c, |s.history|, children, Lowest))
  {
    var h, n := s.history, s.clients[c].phase.node;
    assert GoodClient(s, c) && h[..|h|] == h;
    var j := CreatedIndex(h, n);
    assert NamedNode(s.dir, n);
    ListingParses(s, |h|, children);
    forall i | 0 <= i < |children| ensures n.number <= ParseSeq(children[i]).value {
      assert children[i] in (set x | x in children);
      var m := ViewedWasCreated(h, |h|, children[i]);
      var k := CreatedIndex(h, m);
      assert NamedNode(s.dir, m);
    }
  }

  /** The step left the client with its node, and closer to the lock. */
  ghost predicate Closer(s: State, t: State, c: nat)
    requires c in s.clients && Bids(s.clients[c].phase)
  {
    && c in t.clients && t.history == s.history
    && (t.clients[c].phase.Held? || Bids(t.clients[c].phase))
    && t.clients[c].phase.node == s.clients[c].phase.node
    && Distance(t.clients[c].phase) < Distance(s.clients[c].phase)
  }

  lemma {:induction false} WaiterProgress(s: State, c: nat, children: seq<string>)
    requires Inv(s) && NextInLine(s, c) && s.clients[c].phase.Waiting?
    ensures Enabled(s, OwnStep(s, c, children)) && Closer(s, Apply(s, OwnStep(s, c, children)), c)
  {
    assert GoodClient(s, c);
    GoneWhenLeast(s, c);
  }

  lemma {:induction false} CreatorProgress(s: State, c: nat, children: seq<string>)
    requires Inv(s) && NextInLine(s, c) && s.clients[c].phase.Creating?
    ensures Enabled(s, OwnStep(s, c, children)) && Closer(s, Apply(s, OwnStep(s, c, children)), c)
  {
    var h, node := s.history, s.clients[c].phase.node;
    assert GoodClient(s, c) && h[..|h|] == h;
    var j := CreatedIndex(h, node);
    assert NamedNode(s.dir, node);
    assert ParseSeq(Path(s, node)).Some?;
  }

  /** The client's own step is enabled and brings it closer. */
  lemma {:induction false} OwnStepProgress(s: State, c: nat, children: seq<string>)
    requires Inv(s) && NextInLine(s, c)
    requires (set x | x in children) == View(s.history, |s.history|)
    ensures Enabled(s, OwnStep(s, c, children)) && Closer(s, Apply(s, OwnStep(s, c, children)), c)
  {
    var h, ph := s.history, s.clients[c].phase;
    assert GoodClient(s, c) && h[..|h|] == h;
    if ph.Listing? {
      LeastScansLowest(s, c, children);
    } else if ph.Creating? {
      CreatorProgress(s, c, children);
    } else if ph.Watching? {
      GoneWhenLeast(s, c);
    } else {
      WaiterProgress(s, c, children);
    }
  }

  lemma {:induction false} ReachesWithin(s: State, c: nat) returns (steps: seq<Step>, t: State)
    requires Inv(s) && NextInLine(s, c)
    ensures |steps| <= Distance(s.clients[c].phase) && Leads(s, steps, t) && Holds(t, c)
    ensures t.history == s.history && t.clients[c].phase.node == s.clients[c].phase.node
    decreases Distance(s.clients[c].phase)
  {
    var children := Enumerate(View(s.history, |s.history|));
    var step := OwnStep(s, c, children);
    OwnStepProgress(s, c, children);
    StepInv(s, step);
    var u := Apply(s, step);
    if u.clients[c].phase.Held? {
      steps, t := [step], u;
      assert steps[1..] == [];
    } else {
      var rest, end := ReachesWithin(u, c);
      steps, t := [step] + rest, end;
      assert steps[1..] == rest;
    }
  }

  /** Handover: in every state of every run the contender with the least live
      node is at most three steps of its own and of its server from holding the
      lock, whatever the other clients do not do. */
  lemma {:induction false} Handover(states: seq<State>, steps: seq<Step>, i: nat, c: nat) returns (more: seq<Step>, t: State)
    requires IsRun(states, steps) && i < |states| && NextInLine(states[i], c)
    ensures |more| <= 3 && Leads(states[i], more, t) && Holds(t, c)
  {
    RunInv(states, steps, i);
    more, t := ReachesWithin(states[i], c);
  }
}
