/** What the request multiplexer guarantees over every run, and where its
    guarantees end. */
module RequestTheorems {
  import opened Text
  import opened Xid
  import opened RequestEngine
  import opened RequestInvariant

  // ----- conservation

  /** Every request drawn is in exactly one place: with its caller, in sendChan,
      in the sender's hand, in the pending map, in the receiver's hand, settled,
      or overwritten. A failed write is the only answer that leaves it pending. */
  lemma {:induction false} Conservation(states: seq<State>, steps: seq<Step>, i: nat, k: nat)
    requires IsRun(states, steps) && i < |states| && 1 <= k <= states[i].draws
    ensures k in states[i].reqs
    ensures Places(states[i].reqs[k], WhereIs(states[i], k)) == 1
    ensures AtPending(states[i], k) && states[i].reqs[k].answers != [] ==> states[i].reqs[k].answers == [WriteFailed]
  {
    hide IsRun;
    RunInv(states, steps, i);
  }

  /** A channel gets at most one answer when no write fails and at most two
      otherwise, and only requests that reached the pending map see a failed write. */
  lemma {:induction false} AnswersBounded(states: seq<State>, steps: seq<Step>, i: nat, k: nat)
    requires IsRun(states, steps) && i < |states| && k in states[i].reqs
    ensures var r := states[i].reqs[k];
            && |r.answers| <= (if WriteFailed in r.answers then 2 else 1)
            && (|r.answers| == 2 ==> WriteFailed in r.answers && Settled(r.answers) && r.on.Some?)
            && (k in states[i].displaced ==> !Settled(r.answers))
  {
    hide IsRun;
    RunInv(states, steps, i);
  }

  // ----- connection isolation

  /** When a connection begins nothing is pending, so nothing on it answers for
      an earlier one. */
  lemma {:induction false} ConnectionsStartEmpty(states: seq<State>, steps: seq<Step>, i: nat, k: nat)
    requires IsRun(states, steps) && i < |steps| && steps[i].Authenticated?
    ensures states[i + 1].pending == map[] && states[i + 1].conn == states[i].conn + 1
    ensures k in states[i + 1].reqs && states[i + 1].reqs[k].on.Some? ==>
              states[i + 1].reqs[k].on.value <= states[i].conn
  {
    hide WhereIs, Explained, WellAnswered, Places;
    RunInv(states, steps, i);
  }

  /** A server reply is delivered only to a request that entered the pending map
      on the connection the reply was read from. */
  lemma {:induction false} RepliesStayOnTheirConnection(states: seq<State>, steps: seq<Step>, i: nat, k: nat, c: nat)
    requires IsRun(states, steps) && i < |states| && k in states[i].reqs && Reply(c) in states[i].reqs[k].answers
    ensures states[i].reqs[k].on == Some(c)
  {
    hide IsRun, WhereIs, WellAnswered, Places;
    RunInv(states, steps, i);
  }

  /** A reply with a request's id reaches that very request, as long as it was
      inserted on this connection, is unsettled and was not overwritten. */
  lemma {:induction false} ReplyReachesItsRequest(s: State, k: nat)
    requires Inv(s) && s.phase.Up? && s.receiver.Reading? && k in s.reqs
    requires s.reqs[k].on.Some? && k !in s.displaced && !Settled(s.reqs[k].answers)
    ensures Enabled(s, Receive(XidOf(k)))
    ensures Apply(s, Receive(XidOf(k))).receiver == Handing(k)
    ensures s.reqs[k].on == Some(s.conn)
  {
    hide Keyed, Phased, XidOf, Explained, WellAnswered, Settled;
    assert Sound(s.reqs[k], WhereIs(s, k), s.conn);
  }

  /** Once a connection is flushed, only requests that never entered a pending
      map may still be unanswered. */
  lemma {:induction false} FlushLosesNothing(s: State, k: nat)
    requires Inv(s) && !s.phase.Up? && s.pending == map[] && k in s.reqs
    ensures s.reqs[k].on.Some? ==> Settled(s.reqs[k].answers) || k in s.displaced
    ensures s.reqs[k].on.None? ==> Settled(s.reqs[k].answers) || s.reqs[k].calling || k in s.queue
  {
    hide Keyed, XidOf, Explained, WellAnswered, Settled;
    assert Sound(s.reqs[k], WhereIs(s, k), s.conn);
  }

  // ----- overwriting

  /** Inserting k overwrites a pending request only if their draws are at least
      2^31 apart. */
  lemma {:induction false} InsertOverwritesFar(s: State)
    requires Inv(s) && Enabled(s, Insert) && XidOf(s.sender.k) in s.pending
    ensures var k, d := s.sender.k, s.pending[XidOf(s.sender.k)];
            d >= k + ID_COUNT || k >= d + ID_COUNT
  {
    hide Phased, Counter;
    var k := s.sender.k;
    var d := s.pending[XidOf(k)];
    assert Sound(s.reqs[k], WhereIs(s, k), s.conn);
    XidsApart(k, d);
  }

  /** So no run of fewer than 2^31 draws ever overwrites a request. */
  lemma {:induction false} NothingOverwritten(states: seq<State>, steps: seq<Step>, i: nat, k: nat)
    requires IsRun(states, steps) && i < |states| && k in states[i].reqs && states[i].draws <= ID_COUNT
    ensures k !in states[i].displaced
  {
    hide IsRun, Counter, AllSound, Phased;
    RunInv(states, steps, i);
    if k in states[i].displaced {
      assert HasTwin(states[i].draws, k);
      var j: nat :| 1 <= j <= states[i].draws && j != k && XidOf(j) == XidOf(k);
      XidsApart(j, k);
    }
  }

  lemma {:induction false} Extend(states: seq<State>, steps: seq<Step>, step: Step) returns (longer: seq<State>, more: seq<Step>)
    requires IsRun(states, steps) && Enabled(Last(states), step)
    ensures IsRun(longer, more) && Last(longer) == Apply(Last(states), step)
  {
    hide Enabled, Apply;
    longer, more := states + [Apply(Last(states), step)], steps + [step];
  }

  lemma {:induction false} Start() returns (states: seq<State>, steps: seq<Step>)
    ensures IsRun(states, steps)
    ensures Last(states) == State(map[], 0, [], Stopped, false, map[], {}, Done, 0, Connecting, true, false)
  {
    states, steps := [State(map[], 0, [], Stopped, false, map[], {}, Done, 0, Connecting, true, false)], [];
  }

  // ----- blocking

  /** A pending request's channel is full exactly when its write failed and
      that answer is unread: only then does flushRequests block on it, or
      recvLoop when it holds the request. */
  lemma {:induction false} FullMeansUnreadFailure(s: State, k: nat)
    requires Inv(s) && k in s.reqs && (AtPending(s, k) || s.receiver == Handing(k))
    ensures !Room(s, k) <==> s.reqs[k].answers == [WriteFailed] && !s.reqs[k].taken
    ensures !Room(s, k) ==> s.reqs[k].listening || s.reqs[k].isClose || s.reqs[k].resent
  {
    hide Keyed, Phased, XidOf, Explained;
    assert Sound(s.reqs[k], WhereIs(s, k), s.conn);
  }

  /** sendData and flushUnsentRequests never block before the write. */
  lemma {:induction false} EarlyAnswersHaveRoom(s: State)
    requires Inv(s)
    ensures s.sender.Holding? ==> Room(s, s.sender.k)
    ensures s.queue != [] ==> Room(s, s.queue[0])
  {
    hide Phased, XidOf, Explained, NoRepeats;
    if s.sender.Holding? {
      assert Sound(s.reqs[s.sender.k], WhereIs(s, s.sender.k), s.conn);
    }
    if s.queue != [] {
      assert s.queue[0] in s.queue;
      assert Sound(s.reqs[s.queue[0]], WhereIs(s, s.queue[0]), s.conn);
    }
  }

  /** As long as somebody listens, reading the unread answer lets the flush go on. */
  lemma {:induction false} ListenerUnblocksFlush(s: State, k: nat)
    requires Inv(s) && s.phase.Flushing? && AtPending(s, k) && !Room(s, k) && s.reqs[k].listening
    ensures Enabled(s, TakeAnswer(k))
    ensures Enabled(Apply(s, TakeAnswer(k)), FlushOne(XidOf(k)))
  {
    hide AllSound, NoRepeats, HasTwin, XidOf;
    assert k in s.reqs;
    FullMeansUnreadFailure(s, k);
  }

  // ----- quitting

  lemma {:induction false} QuitStays(s: State, step: Step, k: nat)
    requires Inv(s) && s.phase.Quit? && Enabled(s, step) && k in s.queue
    ensures Apply(s, step).phase.Quit? && k in Apply(s, step).queue
    ensures k in s.reqs && k in Apply(s, step).reqs
    ensures Apply(s, step).reqs[k].answers == [] == s.reqs[k].answers
  {
    hide XidOf, Explained, NoRepeats;
    assert Sound(s.reqs[k], WhereIs(s, k), s.conn);
  }

  /** A request still in sendChan when the client quits is never answered. */
  lemma {:induction false} QuitForgetsTheQueue(states: seq<State>, steps: seq<Step>, k: nat, i: nat)
    requires |states| == |steps| + 1 && Follows(states, steps) && i < |states|
    requires Inv(states[0]) && states[0].phase.Quit? && k in states[0].queue
    ensures Inv(states[i]) && states[i].phase.Quit? && k in states[i].queue
    ensures k in states[i].reqs && states[i].reqs[k].answers == []
  {
    hide Enabled, Apply, Explained, NoRepeats, XidOf;
    if i > 0 {
      QuitForgetsTheQueue(states, steps, k, i - 1);
      StepInv(states[i - 1], steps[i - 1]);
      QuitStays(states[i - 1], steps[i - 1], k);
    } else {
      assert Sound(states[0].reqs[k], WhereIs(states[0], k), states[0].conn);
    }
  }

  /** That happens: a request queued while the connection comes down. */
  lemma {:induction false} QuitWithQueuedRequest() returns (states: seq<State>, steps: seq<Step>)
    ensures IsRun(states, steps) && Last(states).phase.Quit? && 1 in Last(states).queue
  {
    hide IsRun, Follows, XidOf;
    states, steps := Start();
    states, steps := Extend(states, steps, Authenticated);
    states, steps := Extend(states, steps, EndReauth);
    states, steps := Extend(states, steps, StopSender);
    states, steps := Extend(states, steps, StopReceiver);
    states, steps := Extend(states, steps, CloseConn);
    states, steps := Extend(states, steps, Draw(true));
    states, steps := Extend(states, steps, Enqueue(1));
    states, steps := Extend(states, steps, Disconnect);
    states, steps := Extend(states, steps, FlushDone);
  }
}
