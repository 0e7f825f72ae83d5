/** The waiting loop of one Lock value (LockRecipe) against the protocol
    (LockProtocol): a client's List, GetW and Wake steps, whatever others do in
    between, are one turn of that loop (zk/lock.go:90-131). */
module LockTurns {
  import opened Text
  import opened Errors
  import opened LockNames
  import opened LockScan
  import opened LockProtocol
  import opened LockRecipe

  /** A step that client c takes itself. */
  predicate Own(step: Step, c: nat)
  {
    match step
    case CreateEffect(d, _, _) => d == c
    case CreateReturn(d, _) => d == c
    case List(d, _, _, _) => d == c
    case GetW(d, _) => d == c
    case Wake(d) => d == c
    case Abort(d) => d == c
    case UnlockEffect(d) => d == c
    case UnlockReturn(d) => d == c
    case _ => false
  }

  /** Up to the state of the watch, the phase is the same. */
  predicate SamePlace(a: Phase, b: Phase)
  {
    a == b || (a.Waiting? && b.Waiting? && a.node == b.node && a.prev == b.prev)
  }

  lemma {:induction false} ReadersKeep(s: State, step: Step, c: nat)
    requires Enabled(s, step) && c in s.clients && !Own(step, c)
    requires step.CreateReturn? || step.List? || step.GetW? || step.Rearm? || step.Advance?
    ensures c in Apply(s, step).clients && SamePlace(s.clients[c].phase, Apply(s, step).clients[c].phase)
  {
    hide View, ParseSeq, ScanSpec;
  }

  lemma {:induction false} OthersKeep(s: State, step: Step, c: nat)
    requires Enabled(s, step) && c in s.clients && !Own(step, c)
    ensures c in Apply(s, step).clients && SamePlace(s.clients[c].phase, Apply(s, step).clients[c].phase)
  {
    hide View, ParseSeq, ScanSpec;
    if step.CreateReturn? || step.List? || step.GetW? || step.Rearm? || step.Advance? {
      ReadersKeep(s, step, c);
    }
  }

  /** From state i to state j client c takes no step. */
  ghost predicate Rests(steps: seq<Step>, c: nat, i: nat, j: nat)
  {
    i <= j <= |steps| && forall k :: i <= k < j ==> !Own(steps[k], c)
  }

  lemma {:induction false} RestKeeps(states: seq<State>, steps: seq<Step>, c: nat, i: nat, j: nat)
    requires IsRun(states, steps) && Rests(steps, c, i, j) && c in states[i].clients
    ensures c in states[j].clients && SamePlace(states[i].clients[c].phase, states[j].clients[c].phase)
  {
    hide Enabled, Apply, Own, Init;
    if i < j {
      RestKeeps(states, steps, c, i, j - 1);
      OthersKeep(states[j - 1], steps[j - 1], c);
    }
  }

  /** The three conclusions of a scan exclude each other. */
  lemma {:induction false} OneConclusion(children: seq<string>, mine: int)
    ensures !(ScanSpec(children, mine, Unparsable) && ScanSpec(children, mine, Lowest))
    ensures forall p :: ScanSpec(children, mine, Predecessor(p)) ==>
              !ScanSpec(children, mine, Unparsable) && !ScanSpec(children, mine, Lowest)
  {
    hide ParseSeq;
    forall p | ScanSpec(children, mine, Predecessor(p))
      ensures !ScanSpec(children, mine, Unparsable) && !ScanSpec(children, mine, Lowest)
    {
      var i :| 0 <= i < |children| && children[i] == p;
    }
  }

  /** A turn that the listing alone decides. */
  lemma {:induction false} ListDecides(mine: int, round: Round, result: ScanResult)
    requires round.children.Ok? && ScanSpec(round.children.value, mine, result) && !result.Predecessor?
    ensures Wins(mine, round) <==> result.Lowest?
    ensures !Retries(mine, round)
    ensures (exists e :: FailsWith(mine, round, e)) <==> result.Unparsable?
  {
    hide ScanSpec;
    OneConclusion(round.children.value, mine);
    if result.Unparsable? {
      assert FailsWith(mine, round, ErrSyntax);
    }
  }

  /** A turn with a predecessor: GetW and the event decide. */
  lemma {:induction false} WatchDecides(mine: int, round: Round, prev: string)
    requires round.children.Ok? && ScanSpec(round.children.value, mine, Predecessor(prev))
    requires round.getW == Err(ErrNoNode) || round.getW.Ok?
    ensures !Wins(mine, round)
    ensures Retries(mine, round) <==> round.getW.Err? || round.event.Ok?
    ensures (exists e :: FailsWith(mine, round, e)) <==> round.getW.Ok? && round.event.Err?
  {
    hide ScanSpec;
    OneConclusion(round.children.value, mine);
    if round.getW.Ok? && round.event.Err? {
      assert FailsWith(mine, round, round.event.error);
    }
  }

  // ----- one turn in a run

  /** The turn ended with the lock, with another turn to come, or with an error. */
  ghost predicate EndsLike(mine: int, round: Round, phase: Phase)
  {
    && (Wins(mine, round) <==> phase.Held?)
    && (Retries(mine, round) <==> phase.Listing?)
    && ((exists e :: FailsWith(mine, round, e)) <==> phase.Idle?)
  }

  /** The number that Lock compares with, for the node of a client that bids. */
  ghost function Mine(s: State, c: nat): Option<int>
    requires c in s.clients && !s.clients[c].phase.Idle?
  {
    ParseSeq(Path(s, s.clients[c].phase.node))
  }

  ghost predicate ListsAt(states: seq<State>, steps: seq<Step>, c: nat, i: nat, round: Round)
    requires IsRun(states, steps)
  {
    i < |steps| && steps[i].List? && steps[i].c == c && round.children == Ok(steps[i].children)
  }

  /** Step j is the GetW after the listing at i, with this reply. */
  ghost predicate WatchesAt(states: seq<State>, steps: seq<Step>, c: nat, i: nat, j: nat, round: Round)
    requires IsRun(states, steps) && ListsAt(states, steps, c, i, round)
  {
    && i < j < |steps| && steps[i].result.Predecessor? && Rests(steps, c, i + 1, j)
    && steps[j].GetW? && steps[j].c == c && steps[j].p <= |states[j].history|
    && round.getW == (if steps[i].result.name in View(states[j].history, steps[j].p) then Ok(()) else Err(ErrNoNode))
  }

  /** Step k is the receive after the GetW at j, with this event. */
  ghost predicate WakesAt(states: seq<State>, steps: seq<Step>, c: nat, j: nat, k: nat, round: Round)
    requires IsRun(states, steps)
  {
    && j < k < |steps| && Rests(steps, c, j + 1, k) && steps[k] == Wake(c) && c in states[k].clients
    && states[k].clients[c].phase.Waiting? && (round.event.Ok? <==> states[k].clients[c].phase.watch.Fired?)
  }

  lemma {:induction false} ListStep(s: State, step: Step)
    requires Enabled(s, step) && step.List?
    ensures At(s, step.c) && s.clients[step.c].phase.Listing? && Mine(s, step.c).Some?
    ensures ScanSpec(step.children, Mine(s, step.c).value, step.result)
    ensures step.c in Apply(s, step).clients
    ensures var node, phase := s.clients[step.c].phase.node, Apply(s, step).clients[step.c].phase;
            match step.result
            case Lowest => phase == Held(node, false)
            case Unparsable => phase == Idle
            case Predecessor(prev) => phase == Watching(node, prev)
  {
    hide View, ParseSeq, ScanSpec, Live;
  }

  lemma {:induction false} GetWStep(s: State, step: Step)
    requires Enabled(s, step) && step.GetW?
    ensures At(s, step.c) && s.clients[step.c].phase.Watching? && step.p <= |s.history|
    ensures step.c in Apply(s, step).clients
    ensures var phase := s.clients[step.c].phase;
            Apply(s, step).clients[step.c].phase ==
            if phase.prev in View(s.history, step.p) then Waiting(phase.node, phase.prev, Armed) else Listing(phase.node)
  {
    hide View;
  }

  lemma {:induction false} WakeStep(s: State, c: nat)
    requires Enabled(s, Wake(c))
    ensures At(s, c) && s.clients[c].phase.Waiting? && c in Apply(s, Wake(c)).clients
    ensures Apply(s, Wake(c)).clients[c].phase == if s.clients[c].phase.watch.Fired? then Listing(s.clients[c].phase.node) else Idle
  {
  }

  /** A listing without a predecessor is a whole turn: the loop of LockRecipe ends
      or fails exactly as the client does. */
  lemma {:induction false} ListTurn(states: seq<State>, steps: seq<Step>, c: nat, i: nat, round: Round)
    requires IsRun(states, steps) && ListsAt(states, steps, c, i, round) && !steps[i].result.Predecessor?
    ensures c in states[i].clients && states[i].clients[c].phase.Listing? && Mine(states[i], c).Some?
    ensures c in states[i + 1].clients && EndsLike(Mine(states[i], c).value, round, states[i + 1].clients[c].phase)
  {
    hide Enabled, Apply, ScanSpec, ParseSeq, Wins, Retries, FailsWith, Init;
    ListStep(states[i], steps[i]);
    ListDecides(Mine(states[i], c).value, round, steps[i].result);
  }

  /** A listing and a GetW that finds the predecessor gone are a whole turn. */
  lemma {:induction false} MissTurn(states: seq<State>, steps: seq<Step>, c: nat, i: nat, j: nat, round: Round)
    requires IsRun(states, steps) && ListsAt(states, steps, c, i, round)
    requires WatchesAt(states, steps, c, i, j, round) && round.getW.Err?
    ensures c in states[i].clients && states[i].clients[c].phase.Listing? && Mine(states[i], c).Some?
    ensures c in states[j + 1].clients && EndsLike(Mine(states[i], c).value, round, states[j + 1].clients[c].phase)
  {
    hide Enabled, Apply, ScanSpec, ParseSeq, View, Wins, Retries, FailsWith, Init, Own;
    ListStep(states[i], steps[i]);
    RestKeeps(states, steps, c, i + 1, j);
    GetWStep(states[j], steps[j]);
    WatchDecides(Mine(states[i], c).value, round, steps[i].result.name);
  }

  /** A listing, a GetW and the event on its channel are a whole turn. */
  lemma {:induction false} WatchTurn(states: seq<State>, steps: seq<Step>, c: nat, i: nat, j: nat, k: nat, round: Round)
    requires IsRun(states, steps) && ListsAt(states, steps, c, i, round)
    requires WatchesAt(states, steps, c, i, j, round) && round.getW.Ok? && WakesAt(states, steps, c, j, k, round)
    ensures c in states[i].clients && states[i].clients[c].phase.Listing? && Mine(states[i], c).Some?
    ensures c in states[k + 1].clients && EndsLike(Mine(states[i], c).value, round, states[k + 1].clients[c].phase)
  {
    hide Enabled, Apply, ScanSpec, ParseSeq, View, Wins, Retries, FailsWith, Init, Own;
    ListStep(states[i], steps[i]);
    RestKeeps(states, steps, c, i + 1, j);
    GetWStep(states[j], steps[j]);
    RestKeeps(states, steps, c, j + 1, k);
    WakeStep(states[k], c);
    WatchDecides(Mine(states[i], c).value, round, steps[i].result.name);
  }
}
