/** When a connection can come to its end, and what keeps the client from ever
    connecting again (zk/conn.go:515-582, 752-795, 913-937). */
module RequestProgress {
  import opened Text
  import opened Errors
  import opened Xid
  import opened RequestEngine
  import opened RequestInvariant
  import opened RequestTheorems

  // ----- goroutines that wait for ever

  /** Nobody will read the full channel of k. */
  predicate Blocked(s: State, k: nat)
  {
    k in s.reqs && !Room(s, k) && !s.reqs[k].listening
  }

  /** flushRequests, recvLoop or sendData waits to send on it. */
  predicate Stuck(s: State, k: nat)
  {
    && Blocked(s, k)
    && ((s.phase.Flushing? && AtPending(s, k)) || s.receiver == Handing(k) || s.sender == Failing(k))
  }

  /** The answers that must still be sent on the channel of k before the
      connection is over: one for its place in the pending map or in the receiver's
      hand, one for a failed write. */
  function Owed(s: State, k: nat): nat
  {
    One(AtPending(s, k) || s.receiver == Handing(k)) + One(s.sender == Failing(k))
  }

  /** The answers in the buffer of k. */
  function Unread(r: Request): int
  {
    |r.answers| - One(r.taken)
  }

  /** More answers are owed than the channel will ever take. */
  predicate Doomed(s: State, k: nat)
  {
    && k in s.reqs && !s.reqs[k].listening
    && Owed(s, k) >= 1 && Unread(s.reqs[k]) + Owed(s, k) > 1
  }

  lemma {:induction false} StuckIsDoomed(s: State, k: nat)
    requires Inv(s) && Stuck(s, k)
    ensures Doomed(s, k)
  {
    hide Phased, Keyed, XidOf, Explained;
    assert Sound(s.reqs[k], WhereIs(s, k), s.conn);
  }

  /** In a flush the two are the same. */
  lemma {:induction false} DoomedFlushIsStuck(s: State, k: nat)
    requires Inv(s) && s.phase.Flushing?
    ensures Doomed(s, k) <==> Stuck(s, k)
  {
    hide Keyed, XidOf, Explained;
    if k in s.reqs {
      assert Sound(s.reqs[k], WhereIs(s, k), s.conn);
    }
  }

  /** Inserting another request does not take the place of k. */
  predicate Spares(s: State, step: Step, k: nat)
  {
    step.Insert? && s.sender.Holding? && AtPending(s, k) ==> XidOf(s.sender.k) != XidOf(k)
  }

  /** What soundness says of a doomed request. */
  predicate Idling(s: State, k: nat)
  {
    && s.sender != Holding(k) && s.sender != Writing(k) && k <= s.draws
    && (forall x :: x in s.pending && s.pending[x] == k ==> x == XidOf(k))
  }

  lemma {:induction false} DoomedIdles(s: State, k: nat)
    requires Inv(s) && Doomed(s, k)
    ensures Idling(s, k)
  {
    hide Phased, NoRepeats, HasTwin, Explained, Counter;
    assert Sound(s.reqs[k], WhereIs(s, k), s.conn);
  }

  lemma {:induction false} CallerKeepsDoom(s: State, step: Step, k: nat)
    requires Enabled(s, step) && ByCaller(step) && Doomed(s, k) && Idling(s, k)
    ensures Doomed(Apply(s, step), k)
  {
    hide XidOf;
  }

  lemma {:induction false} SenderKeepsDoom(s: State, step: Step, k: nat)
    requires Enabled(s, step) && BySender(step) && Doomed(s, k) && Idling(s, k) && Spares(s, step, k)
    ensures Doomed(Apply(s, step), k)
  {
    hide Enabled, Apply, BySender, InSendData, Doomed, Idling, Stuck, Fit, Spares;
    if InSendData(step) {
      SendDataKeepsDoom(s, step, k);
    } else {
      IdleKeepsDoom(s, step, k);
    }
  }

  lemma {:induction false} SendDataKeepsDoom(s: State, step: Step, k: nat)
    requires Enabled(s, step) && InSendData(step) && Doomed(s, k) && Idling(s, k) && Spares(s, step, k)
    ensures Doomed(Apply(s, step), k)
  {
    hide XidOf, Inserted;
    if step.Insert? {
      assert Apply(s, step) == Inserted(s, s.sender.k);
      InsertKeepsDoom(s, s.sender.k, k);
    }
  }

  lemma {:induction false} IdleKeepsDoom(s: State, step: Step, k: nat)
    requires Enabled(s, step) && BySender(step) && !InSendData(step) && Doomed(s, k) && Idling(s, k) && Spares(s, step, k)
    ensures Doomed(Apply(s, step), k)
  {
    hide XidOf;
  }

  lemma {:induction false} InsertKeepsDoom(s: State, m: nat, k: nat)
    requires s.sender == Holding(m) && m in s.reqs && Doomed(s, k) && (AtPending(s, k) ==> XidOf(m) != XidOf(k))
    requires m != k
    ensures Doomed(Inserted(s, m), k)
  {
    hide XidOf;
  }

  lemma {:induction false} ReceiverKeepsDoom(s: State, step: Step, k: nat)
    requires Enabled(s, step) && ByReceiver(step) && Doomed(s, k) && Idling(s, k)
    ensures Doomed(Apply(s, step), k)
  {
    hide XidOf;
  }

  lemma {:induction false} LoopKeepsDoom(s: State, step: Step, k: nat)
    requires Phased(s) && Enabled(s, step) && ByLoop(step) && Doomed(s, k) && Idling(s, k)
    ensures Doomed(Apply(s, step), k)
  {
    hide XidOf;
  }

  lemma {:induction false} DoomedStays(s: State, step: Step, k: nat)
    requires Inv(s) && Enabled(s, step) && Doomed(s, k) && Spares(s, step, k)
    ensures Doomed(Apply(s, step), k)
  {
    hide Enabled, Apply, ByCaller, BySender, ByReceiver, Doomed, Idling, Keyed, Phased, AllSound, Spares;
    DoomedIdles(s, k);
    if ByCaller(step) {
      CallerKeepsDoom(s, step, k);
    } else if BySender(step) {
      SenderKeepsDoom(s, step, k);
    } else if ByReceiver(step) {
      ReceiverKeepsDoom(s, step, k);
    } else {
      LoopStep(step);
      LoopKeepsDoom(s, step, k);
    }
  }

  /** While one is doomed the connection is not over. */
  lemma {:induction false} DoomedIsConnected(s: State, k: nat)
    requires Inv(s) && Doomed(s, k)
    ensures s.phase.Up? || s.phase.Flushing?
  {
    hide Keyed, AllSound, XidOf;
  }

  // ----- a goroutine that is stuck

  lemma {:induction false} StuckStays(s: State, step: Step, k: nat)
    requires Inv(s) && Stuck(s, k) && Enabled(s, step)
    ensures Stuck(Apply(s, step), k) && Apply(s, step).conn == s.conn && Apply(s, step).phase == s.phase
  {
    hide Enabled, Apply, ByCaller, BySender, ByReceiver, Doomed, Idling, Keyed, Phased, AllSound, Stuck;
    StuckIsDoomed(s, k);
    DoomedIdles(s, k);
    if ByCaller(step) {
      CallerKeepsStuck(s, step, k);
    } else if BySender(step) {
      SenderKeepsStuck(s, step, k);
    } else if ByReceiver(step) {
      ReceiverKeepsStuck(s, step, k);
    } else {
      LoopStep(step);
      LoopKeepsStuck(s, step, k);
    }
  }

  lemma {:induction false} CallerKeepsStuck(s: State, step: Step, k: nat)
    requires Enabled(s, step) && ByCaller(step) && Stuck(s, k) && Idling(s, k)
    ensures Stuck(Apply(s, step), k) && Apply(s, step).conn == s.conn && Apply(s, step).phase == s.phase
  {
    hide XidOf;
  }

  lemma {:induction false} SenderKeepsStuck(s: State, step: Step, k: nat)
    requires Enabled(s, step) && BySender(step) && Stuck(s, k) && Idling(s, k)
    ensures Stuck(Apply(s, step), k) && Apply(s, step).conn == s.conn && Apply(s, step).phase == s.phase
  {
    hide Enabled, Apply, BySender, InSendData, Doomed, Idling, Stuck, Fit, Spares;
    if InSendData(step) {
      SendDataKeepsStuck(s, step, k);
    } else {
      IdleKeepsStuck(s, step, k);
    }
  }

  lemma {:induction false} SendDataKeepsStuck(s: State, step: Step, k: nat)
    requires Enabled(s, step) && InSendData(step) && Stuck(s, k) && Idling(s, k)
    ensures Stuck(Apply(s, step), k) && Apply(s, step).conn == s.conn && Apply(s, step).phase == s.phase
  {
    hide XidOf;
  }

  lemma {:induction false} IdleKeepsStuck(s: State, step: Step, k: nat)
    requires Enabled(s, step) && BySender(step) && !InSendData(step) && Stuck(s, k) && Idling(s, k)
    ensures Stuck(Apply(s, step), k) && Apply(s, step).conn == s.conn && Apply(s, step).phase == s.phase
  {
    hide XidOf;
  }

  lemma {:induction false} ReceiverKeepsStuck(s: State, step: Step, k: nat)
    requires Enabled(s, step) && ByReceiver(step) && Stuck(s, k) && Idling(s, k)
    ensures Stuck(Apply(s, step), k) && Apply(s, step).conn == s.conn && Apply(s, step).phase == s.phase
  {
    hide XidOf;
  }

  lemma {:induction false} LoopKeepsStuck(s: State, step: Step, k: nat)
    requires Phased(s) && Enabled(s, step) && ByLoop(step) && Stuck(s, k) && Idling(s, k)
    ensures Stuck(Apply(s, step), k) && Apply(s, step).conn == s.conn && Apply(s, step).phase == s.phase
  {
    hide XidOf;
  }

  /** No later step, of anybody, ends it: the client never connects again. */
  lemma {:induction false} StuckForever(s: State, steps: seq<Step>, t: State, k: nat)
    requires Inv(s) && Stuck(s, k) && Takes(s, steps, t)
    ensures Inv(t) && Stuck(t, k) && t.conn == s.conn && t.phase == s.phase
    decreases |steps|
  {
    hide Enabled, Apply, Inv, Stuck;
    if steps != [] {
      StepInv(s, steps[0]);
      StuckStays(s, steps[0], k);
      StuckForever(Apply(s, steps[0]), steps[1..], t, k);
    }
  }

  // ----- what dooms a request

  /** What soundness says of a request with an answer, or of one not drawn yet. */
  predicate Fit(s: State, k: nat)
  {
    && (forall x :: x in s.pending && s.pending[x] == k ==> x == XidOf(k))
    && if k in s.reqs then
      var a := s.reqs[k].answers;
      && !(AtPending(s, k) && s.receiver == Handing(k))
      && (AtPending(s, k) || s.receiver == Handing(k) || s.sender == Failing(k) ==> k !in s.queue)
      && (AtPending(s, k) || s.receiver == Handing(k) ==> a == [] || a == [WriteFailed])
      && (s.sender == Writing(k) || s.sender == Failing(k) || s.sender == Waiting(k) ==> WriteFailed !in a)
      && (s.sender == Holding(k) ==> a == [] && !AtPending(s, k) && s.receiver != Handing(k))
      && (|a| > 1 ==> WriteFailed in a)
      && |a| <= 2 && (s.reqs[k].listening ==> !s.reqs[k].taken)
    else
      !AtPending(s, k) && s.receiver != Handing(k) && s.sender != Failing(k) && s.sender != Writing(k)
  }

  lemma {:induction false} AllFit(s: State, k: nat)
    requires Inv(s)
    ensures Fit(s, k)
  {
    hide Explained, Counter, NoRepeats, HasTwin;
    if k in s.reqs {
      assert Sound(s.reqs[k], WhereIs(s, k), s.conn);
    }
  }

  lemma {:induction false} CallerDooms(s: State, step: Step, k: nat)
    requires Enabled(s, step) && ByCaller(step) && !Doomed(s, k) && Doomed(Apply(s, step), k) && Fit(s, k)
    ensures step == GiveUp(k)
  {
    hide XidOf;
  }

  lemma {:induction false} SenderDooms(s: State, step: Step, k: nat)
    requires Enabled(s, step) && BySender(step) && !Doomed(s, k) && Doomed(Apply(s, step), k) && Fit(s, k)
    ensures step.WriteFails? && s.sender == Writing(k)
  {
    hide Enabled, Apply, BySender, InSendData, Doomed, Idling, Stuck, Fit, Spares;
    if InSendData(step) {
      SendDataDooms(s, step, k);
    } else {
      IdleDooms(s, step, k);
    }
  }

  lemma {:induction false} SendDataDooms(s: State, step: Step, k: nat)
    requires Enabled(s, step) && InSendData(step) && !Doomed(s, k) && Doomed(Apply(s, step), k) && Fit(s, k)
    ensures step.WriteFails? && s.sender == Writing(k)
  {
    hide XidOf;
  }

  lemma {:induction false} IdleDooms(s: State, step: Step, k: nat)
    requires Enabled(s, step) && BySender(step) && !InSendData(step) && !Doomed(s, k) && Fit(s, k)
    ensures !Doomed(Apply(s, step), k)
  {
    hide XidOf;
  }

  lemma {:induction false} ReceiverDooms(s: State, step: Step, k: nat)
    requires Enabled(s, step) && ByReceiver(step) && !Doomed(s, k) && Fit(s, k)
    ensures !Doomed(Apply(s, step), k)
  {
    hide XidOf;
  }

  lemma {:induction false} LoopDooms(s: State, step: Step, k: nat)
    requires Enabled(s, step) && ByLoop(step) && !Doomed(s, k) && Fit(s, k)
    ensures !Doomed(Apply(s, step), k)
  {
    hide XidOf;
  }

  /** Only a failed write, or a caller of Close that stops waiting, dooms a request. */
  lemma {:induction false} WhatDooms(s: State, step: Step, k: nat)
    requires Inv(s) && Enabled(s, step) && !Doomed(s, k) && Doomed(Apply(s, step), k)
    ensures (step.WriteFails? && s.sender == Writing(k)) || step == GiveUp(k)
  {
    hide Enabled, Apply, ByCaller, BySender, ByReceiver, Doomed, Fit, Inv;
    AllFit(s, k);
    if ByCaller(step) {
      CallerDooms(s, step, k);
    } else if BySender(step) {
      SenderDooms(s, step, k);
    } else if ByReceiver(step) {
      ReceiverDooms(s, step, k);
    } else {
      LoopStep(step);
      LoopDooms(s, step, k);
    }
  }

  /** It is a close request or a credential sent again; every other request has
      a reader. */
  lemma {:induction false} WhoIsDoomed(s: State, k: nat)
    requires Inv(s) && Doomed(s, k)
    ensures s.reqs[k].isClose || s.reqs[k].resent
  {
    hide Keyed, Phased, XidOf, Explained;
    assert Sound(s.reqs[k], WhereIs(s, k), s.conn);
  }

  // ----- the way out

  ghost predicate NoneDoomed(s: State)
  {
    forall k :: !Doomed(s, k)
  }

  /** A step that dooms nothing and draws nothing. */
  predicate Harmless(step: Step)
  {
    !step.WriteFails? && !step.GiveUp? && !step.Draw? && !step.Resend?
  }

  lemma {:induction false} HarmlessKeeps(s: State, step: Step)
    requires Inv(s) && NoneDoomed(s) && Enabled(s, step) && Harmless(step)
    ensures Inv(Apply(s, step)) && NoneDoomed(Apply(s, step))
  {
    hide Enabled, Apply, Inv, Doomed;
    StepInv(s, step);
    forall k: nat ensures !Doomed(Apply(s, step), k) {
      if Doomed(Apply(s, step), k) {
        WhatDooms(s, step, k);
      }
    }
  }

  lemma {:induction false} TakesConcat(s: State, a: seq<Step>, m: State, b: seq<Step>, t: State)
    requires Takes(s, a, m) && Takes(m, b, t)
    ensures Takes(s, a + b, t)
    decreases |a|
  {
    hide Enabled, Apply;
    if a == [] {
      assert a + b == b;
    } else {
      TakesConcat(Apply(s, a[0]), a[1..], m, b, t);
      assert (a + b)[1..] == a[1..] + b;
    }
  }

  /** A goroutine is about to send on the channel of k. */
  predicate Awaits(s: State, k: nat)
  {
    (s.phase.Flushing? && AtPending(s, k)) || s.receiver == Handing(k) || s.sender == Failing(k)
  }

  /** If the channel is full somebody listens, and one read makes room. */
  lemma {:induction false} MakeRoom(s: State, k: nat) returns (steps: seq<Step>, t: State)
    requires Inv(s) && NoneDoomed(s) && k in s.reqs && Awaits(s, k)
    ensures Takes(s, steps, t) && Inv(t) && NoneDoomed(t) && Room(t, k) && t == s.(reqs := t.reqs)
  {
    hide Inv, Enabled, Apply, Doomed, Takes, Room, Fit;
    if Room(s, k) {
      TakesNone(s);
      steps, t := [], s;
    } else {
      ReadMakesRoom(s, k);
      TakesOne(s, TakeAnswer(k));
      HarmlessKeeps(s, TakeAnswer(k));
      steps, t := [TakeAnswer(k)], Apply(s, TakeAnswer(k));
    }
  }

  lemma {:induction false} ReadMakesRoom(s: State, k: nat)
    requires Inv(s) && !Doomed(s, k) && k in s.reqs && Awaits(s, k) && !Room(s, k)
    ensures Enabled(s, TakeAnswer(k))
    ensures var t := Apply(s, TakeAnswer(k)); Room(t, k) && t == s.(reqs := t.reqs)
  {
    hide Keyed, AllSound, XidOf, Doomed;
    AllFit(s, k);
    if !s.reqs[k].listening {
      StuckIsDoomed(s, k);
    }
  }

  function ReceiverRank(r: Receiver): nat
  {
    match r
    case Handing(_) => 2
    case Reading => 1
    case Ended => 1
    case Done => 0
  }

  function SenderRank(s: State): nat
  {
    match s.sender
    case Holding(_) => 3
    case Writing(_) => 3
    case Failing(_) => 3
    case Waiting(_) => 2
    case Idle => if s.reauth then 2 else 1
    case Stopped => 0
  }

  /** How far the connection is from its flush. */
  function Rank(s: State): nat
  {
    if s.phase.Up? then 1 + ReceiverRank(s.receiver) + SenderRank(s) else 0
  }

  /** The request that the next step answers, if it answers one that may be full. */
  function Sending(s: State, x: nat): Option<nat>
  {
    if s.phase.Flushing? then if x in s.pending then Some(s.pending[x]) else None
    else if s.receiver.Handing? then Some(s.receiver.k)
    else if s.receiver.Done? && s.sender.Failing? then Some(s.sender.k)
    else None
  }

  /** The step towards the end of the connection: the receiver stops, then the
      sender, then the pending requests are flushed. */
  function Onward(s: State, x: nat): Step
  {
    if s.phase.Flushing? then if x in s.pending then FlushOne(x) else FlushDone
    else if s.receiver.Handing? then Deliver
    else if !s.receiver.Done? then StopReceiver
    else match s.sender
         case Holding(_) => Refuse
         case Writing(_) => DeadlineFails
         case Failing(_) => ReportFailure
         case Waiting(_) => EndReauth
         case Idle => if s.reauth then EndReauth else StopSender
         case Stopped => Disconnect
  }

  /** The step is enabled, dooms nothing, and the connection is over or nearer to
      its end. */
  ghost predicate Works(s: State, step: Step)
  {
    && Enabled(s, step) && Harmless(step)
    && var t := Apply(s, step);
       && t.draws == s.draws
       && (if t.phase.Up? || t.phase.Flushing?
           then Rank(t) < Rank(s) || (Rank(t) == Rank(s) && |t.pending| < |s.pending|)
           else t.phase.Connecting? || t.phase.Quit?)
  }

  lemma {:induction false} OnwardWorks(s: State, x: nat)
    requires Inv(s) && (s.phase.Up? || s.phase.Flushing?)
    requires x in s.pending || s.pending == map[]
    requires Sending(s, x).Some? ==> Room(s, Sending(s, x).value)
    ensures Works(s, Onward(s, x))
  {
    hide Keyed, AllSound, XidOf, Works, Enabled, Apply;
    EarlyAnswersHaveRoom(s);
    if s.phase.Flushing? {
      FlushWorks(s, x);
    } else if s.receiver.Done? {
      SenderWorks(s, x);
    } else {
      ReceiverWorks(s, x);
    }
  }

  lemma {:induction false} FlushWorks(s: State, x: nat)
    requires s.phase.Flushing? && (x in s.pending || s.pending == map[])
    requires x in s.pending ==> Room(s, s.pending[x])
    ensures Works(s, Onward(s, x))
  {
    hide Works, Apply, Enabled;
    if x in s.pending {
      FlushOneWorks(s, x);
    } else {
      FlushDoneWorks(s);
    }
  }

  lemma {:induction false} FlushOneWorks(s: State, x: nat)
    requires s.phase.Flushing? && x in s.pending && Room(s, s.pending[x])
    ensures Works(s, FlushOne(x))
  {
    hide XidOf, Answer;
    FewerPending(s.pending, x);
    var t := Apply(s, FlushOne(x));
    assert t.pending == s.pending - {x} && t.phase == s.phase && Rank(t) == Rank(s);
  }

  lemma {:induction false} FlushDoneWorks(s: State)
    requires s.phase.Flushing? && s.pending == map[]
    ensures Works(s, FlushDone)
  {
    hide XidOf;
  }

  lemma {:induction false} ReceiverWorks(s: State, x: nat)
    requires s.phase.Up? && !s.receiver.Done? && (s.receiver.Handing? ==> Room(s, s.receiver.k))
    ensures Works(s, Onward(s, x))
  {
    hide XidOf;
  }

  lemma {:induction false} SenderWorks(s: State, x: nat)
    requires Phased(s) && s.phase.Up? && s.receiver.Done?
    requires s.sender.Holding? || s.sender.Failing? ==> Room(s, s.sender.k)
    ensures Works(s, Onward(s, x))
  {
    hide XidOf, Answer;
  }

  lemma {:induction false} FewerPending(m: map<nat, nat>, x: nat)
    requires x in m
    ensures |m - {x}| < |m|
  {
    assert (m - {x}).Keys == m.Keys - {x};
    assert |m.Keys| == |m| && |(m - {x}).Keys| == |m - {x}|;
  }

  lemma {:induction false} SendingAwaits(s: State, x: nat)
    requires Inv(s) && Sending(s, x).Some? && (s.phase.Up? || s.phase.Flushing?)
    ensures Sending(s, x).value in s.reqs && Awaits(s, Sending(s, x).value)
  {
    hide AllSound, NoRepeats, HasTwin, Counter;
  }

  lemma {:induction false} SomePending(s: State) returns (x: nat)
    ensures x in s.pending || s.pending == map[]
  {
    x := 0;
    if s.pending != map[] {
      x :| x in s.pending;
    }
  }

  /** If no request is doomed, some steps end the connection. */
  lemma {:induction false} WayOut(s: State) returns (steps: seq<Step>, t: State)
    requires Inv(s) && NoneDoomed(s) && (s.phase.Up? || s.phase.Flushing?)
    ensures Takes(s, steps, t) && t.draws == s.draws && (t.phase.Connecting? || t.phase.Quit?)
    decreases Rank(s), |s.pending|
  {
    hide Inv, Enabled, Apply, Doomed, Takes, Room, Onward, Sending, NoneDoomed, Awaits;
    var x := SomePending(s);
    var before, s1 := [], s;
    TakesNone(s);
    if Sending(s, x).Some? {
      SendingAwaits(s, x);
      before, s1 := MakeRoom(s, Sending(s, x).value);
      SameSending(s, s1, x);
    }
    OnwardWorks(s1, x);
    var step := Onward(s1, x);
    var s2 := Apply(s1, step);
    TakesMore(s, before, s1, step);
    HarmlessKeeps(s1, step);
    if s2.phase.Up? || s2.phase.Flushing? {
      var rest, end := WayOut(s2);
      TakesConcat(s, before + [step], s2, rest, end);
      steps, t := before + [step] + rest, end;
    } else {
      steps, t := before + [step], s2;
    }
  }

  lemma {:induction false} SameSending(s: State, t: State, x: nat)
    requires t == s.(reqs := t.reqs)
    ensures Sending(t, x) == Sending(s, x) && Rank(t) == Rank(s)
  {
  }

  // ----- no way out

  lemma {:induction false} DrawsGrow(s: State, steps: seq<Step>, t: State)
    requires Takes(s, steps, t)
    ensures s.draws <= t.draws
    decreases |steps|
  {
    hide Enabled, Apply;
    if steps != [] {
      KeysKept(s, steps[0]);
      DrawsGrow(Apply(s, steps[0]), steps[1..], t);
    }
  }

  /** With fewer than 2^31 draws no insertion takes another request's place. */
  lemma {:induction false} FewDrawsSpare(s: State, step: Step, k: nat)
    requires Inv(s) && Enabled(s, step) && Doomed(s, k) && s.draws <= ID_COUNT
    ensures Spares(s, step, k)
  {
    hide Counter, Phased, AllSound, NoRepeats, HasTwin;
    DoomedIdles(s, k);
    if step.Insert? {
      XidsApart(s.sender.k, k);
    }
  }

  /** A doomed request keeps its connection from ending. */
  lemma {:induction false} DoomedRun(s: State, steps: seq<Step>, t: State, k: nat)
    requires Inv(s) && Doomed(s, k) && Takes(s, steps, t) && t.draws <= ID_COUNT
    ensures Inv(t) && Doomed(t, k)
    decreases |steps|
  {
    hide Enabled, Apply, Inv, Doomed;
    if steps != [] {
      DrawsGrow(s, steps, t);
      FewDrawsSpare(s, steps[0], k);
      StepInv(s, steps[0]);
      DoomedStays(s, steps[0], k);
      DoomedRun(Apply(s, steps[0]), steps[1..], t, k);
    }
  }

  // ----- exactly when

  ghost predicate LeavesFlush(s: State)
  {
    exists steps, t :: Takes(s, steps, t) && !t.phase.Flushing?
  }

  /** The flush after a connection can end if and only if no pending request has a
      full channel that nobody will read. */
  lemma {:induction false} FlushEndsExactly(s: State)
    requires Inv(s) && s.phase.Flushing?
    ensures LeavesFlush(s) <==> forall k :: !Stuck(s, k)
  {
    hide Inv, Takes, Stuck, Doomed;
    if LeavesFlush(s) {
      var steps, t :| Takes(s, steps, t) && !t.phase.Flushing?;
      forall k: nat ensures !Stuck(s, k) {
        if Stuck(s, k) {
          StuckForever(s, steps, t, k);
        }
      }
    }
    if forall k: nat :: !Stuck(s, k) {
      forall k: nat ensures !Doomed(s, k) {
        DoomedFlushIsStuck(s, k);
      }
      var steps, t := WayOut(s);
    }
  }

  ghost predicate CanReconnect(s: State)
  {
    exists steps, t :: Takes(s, steps, t) && t.draws <= ID_COUNT && (t.phase.Connecting? || t.phase.Quit?)
  }

  /** A connection can come to its end, so that the client connects again or quits,
      if and only if no request is owed more answers than its channel will take. */
  lemma {:induction false} ConnectionEndsExactly(s: State)
    requires Inv(s) && (s.phase.Up? || s.phase.Flushing?) && s.draws <= ID_COUNT
    ensures CanReconnect(s) <==> forall k :: !Doomed(s, k)
  {
    hide Inv, Takes, Doomed;
    if CanReconnect(s) {
      var steps, t :| Takes(s, steps, t) && t.draws <= ID_COUNT && (t.phase.Connecting? || t.phase.Quit?);
      forall k: nat ensures !Doomed(s, k) {
        if Doomed(s, k) {
          DoomedRun(s, steps, t, k);
          DoomedIsConnected(t, k);
        }
      }
    }
    if forall k: nat :: !Doomed(s, k) {
      var steps, t := WayOut(s);
    }
  }

  // ----- it happens

  /** The write of request 1 failed, nobody will read the answer, and the request
      is pending on a connection where the receiver is still reading. */
  predicate LostAnswer(s: State)
  {
    s.phase.Up? && s.receiver.Reading? && Blocked(s, 1) && AtPending(s, 1)
  }

  /** A credential is sent again and its write fails: resendZkAuth drops the channel. */
  lemma {:induction false} FailedResend() returns (states: seq<State>, steps: seq<Step>)
    ensures IsRun(states, steps)
    ensures LostAnswer(Last(states)) && Last(states).sender.Idle? && Last(states).reauth
  {
    hide IsRun, Follows, XidOf;
    states, steps := Start();
    states, steps := Extend(states, steps, Authenticated);
    states, steps := Extend(states, steps, Resend);
    states, steps := Extend(states, steps, Insert);
    states, steps := Extend(states, steps, WriteFails);
    states, steps := Extend(states, steps, ReportFailure);
  }

  lemma {:induction false} FailedResendStops() returns (states: seq<State>, steps: seq<Step>)
    ensures IsRun(states, steps)
    ensures LostAnswer(Last(states)) && Last(states).sender.Stopped?
  {
    hide IsRun, Follows, XidOf;
    states, steps := FailedResend();
    states, steps := Extend(states, steps, EndReauth);
    states, steps := Extend(states, steps, StopSender);
  }

  /** The flush after the connection waits for room in that channel. */
  lemma {:induction false} FailedResendBlocksFlush() returns (states: seq<State>, steps: seq<Step>)
    ensures IsRun(states, steps)
    ensures Last(states).phase.Flushing? && Stuck(Last(states), 1)
  {
    hide IsRun, Follows, XidOf;
    states, steps := FailedResendStops();
    states, steps := Extend(states, steps, StopReceiver);
    states, steps := Extend(states, steps, Disconnect);
  }

  /** The same write fails after all while the reply is already in the receiver's
      hand: recvLoop waits, and no flush is ever reached. */
  lemma {:induction false} FailedResendBlocksReceiver() returns (states: seq<State>, steps: seq<Step>)
    ensures IsRun(states, steps) && Last(states).phase.Up? && Last(states).receiver == Handing(1) && Stuck(Last(states), 1)
  {
    hide IsRun, Follows, XidOf;
    states, steps := Start();
    states, steps := Extend(states, steps, Authenticated);
    states, steps := Extend(states, steps, Resend);
    states, steps := Extend(states, steps, Insert);
    states, steps := Extend(states, steps, Receive(XidOf(1)));
    states, steps := Extend(states, steps, WriteFails);
    states, steps := Extend(states, steps, ReportFailure);
  }

  /** The reply is delivered first: sendData itself waits to report the failure. */
  lemma {:induction false} FailedResendBlocksSender() returns (states: seq<State>, steps: seq<Step>)
    ensures IsRun(states, steps) && Last(states).phase.Up? && Last(states).sender == Failing(1) && Stuck(Last(states), 1)
  {
    hide IsRun, Follows, XidOf;
    states, steps := Start();
    states, steps := Extend(states, steps, Authenticated);
    states, steps := Extend(states, steps, Resend);
    states, steps := Extend(states, steps, Insert);
    states, steps := Extend(states, steps, Receive(XidOf(1)));
    states, steps := Extend(states, steps, Deliver);
    states, steps := Extend(states, steps, WriteFails);
  }

  /** Request 1 comes from Close and is being written. */
  predicate CloseWritten(s: State)
  {
    && s.phase.Up? && s.receiver.Reading? && s.quit && !s.reauth && s.sender == Writing(1) && AtPending(s, 1)
    && 1 in s.reqs && s.reqs[1] == Request([], false, true, false, true, false, Some(1))
  }

  lemma {:induction false} CloseInserted() returns (states: seq<State>, steps: seq<Step>)
    ensures IsRun(states, steps)
    ensures CloseWritten(Last(states))
  {
    hide IsRun, Follows, XidOf;
    states, steps := Start();
    states, steps := Extend(states, steps, CloseConn);
    states, steps := Extend(states, steps, Authenticated);
    states, steps := Extend(states, steps, EndReauth);
    states, steps := Extend(states, steps, Draw(true));
    states, steps := Extend(states, steps, Enqueue(1));
    states, steps := Extend(states, steps, Dequeue);
    states, steps := Extend(states, steps, Insert);
  }

  lemma {:induction false} CloseGivesUp() returns (states: seq<State>, steps: seq<Step>)
    ensures IsRun(states, steps)
    ensures LostAnswer(Last(states)) && Last(states).sender.Stopped? && Last(states).quit
  {
    hide IsRun, Follows, XidOf;
    states, steps := CloseInserted();
    states, steps := Extend(states, steps, GiveUp(1));
    states, steps := Extend(states, steps, WriteFails);
    states, steps := Extend(states, steps, ReportFailure);
  }

  /** Close gives up waiting for its request, whose write fails. */
  lemma {:induction false} TimedOutCloseBlocksFlush() returns (states: seq<State>, steps: seq<Step>)
    ensures IsRun(states, steps)
    ensures Last(states).phase == Flushing(ErrClosing) && Stuck(Last(states), 1)
  {
    hide IsRun, Follows, XidOf;
    states, steps := CloseGivesUp();
    states, steps := Extend(states, steps, StopReceiver);
    states, steps := Extend(states, steps, Disconnect);
  }
}
