/** What every request is told: which step gives which answer, and which errors a
    flush can give (zk/conn.go:361-378, 541-582, 752-795, 913-931). */
module RequestAnswers {
  import opened Text
  import opened Errors
  import opened Xid
  import opened RequestEngine
  import opened RequestInvariant

  /** What a step sends on the channel of request k. */
  function Given(s: State, step: Step, k: nat): seq<Outcome>
  {
    match step
    case EncodeFails => if s.sender == Holding(k) then [EncodeFailed] else []
    case Refuse => if s.sender == Holding(k) then [Refused] else []
    case ReportFailure => if s.sender == Failing(k) then [WriteFailed] else []
    case Deliver => if s.receiver == Handing(k) then [Reply(s.conn)] else []
    case FlushOne(xid) =>
      if xid in s.pending && s.pending[xid] == k && s.phase.Flushing? then [Flushed(s.phase.error)] else []
    case FlushUnsent(error) => if s.queue != [] && s.queue[0] == k then [Unsent(error)] else []
    case _ => []
  }

  /** A step adds exactly that to the answers of every request. */
  ghost predicate Gives(s: State, step: Step, k: nat)
    requires Enabled(s, step) && k in s.reqs
  {
    k in Apply(s, step).reqs && Apply(s, step).reqs[k].answers == s.reqs[k].answers + Given(s, step, k)
  }

  lemma {:induction false} CallerGives(s: State, step: Step, k: nat)
    requires Enabled(s, step) && ByCaller(step) && k in s.reqs && k <= s.draws
    ensures Gives(s, step, k)
  {
    hide XidOf;
  }

  lemma {:induction false} SendDataGives(s: State, step: Step, k: nat)
    requires Enabled(s, step) && InSendData(step) && k in s.reqs
    ensures Gives(s, step, k)
  {
    hide XidOf;
  }

  lemma {:induction false} IdleGives(s: State, step: Step, k: nat)
    requires Enabled(s, step) && BySender(step) && !InSendData(step) && k in s.reqs && k <= s.draws
    ensures Gives(s, step, k)
  {
    hide XidOf;
  }

  lemma {:induction false} OtherGives(s: State, step: Step, k: nat)
    requires Enabled(s, step) && !ByCaller(step) && !BySender(step) && k in s.reqs
    ensures Gives(s, step, k)
  {
    hide XidOf;
  }

  lemma {:induction false} StepGives(s: State, step: Step, k: nat)
    requires Inv(s) && Enabled(s, step) && k in s.reqs
    ensures Gives(s, step, k)
  {
    hide Enabled, Apply, ByCaller, BySender, InSendData, Gives, Phased, AllSound;
    if ByCaller(step) {
      CallerGives(s, step, k);
    } else if !BySender(step) {
      OtherGives(s, step, k);
    } else if InSendData(step) {
      SendDataGives(s, step, k);
    } else {
      IdleGives(s, step, k);
    }
  }

  lemma {:induction false} NewAnswers(s: State, step: Step, k: nat)
    requires Enabled(s, step) && k !in s.reqs && k in Apply(s, step).reqs
    ensures Apply(s, step).reqs[k].answers == []
  {
    hide XidOf, SendOk, Inserted, Answer;
  }

  // ----- where sender and receiver go on

  /** After sendData: sendLoop takes the next request or returns; resendZkAuth waits
      for the answer or drops the request and takes the next credential. */
  lemma {:induction false} SenderGoesOn(s: State, step: Step)
    requires Enabled(s, step) && BySender(step)
    ensures var t := Apply(s, step);
            && (step.EncodeFails? || step.WriteSucceeds? ==>
                  if s.reauth then t.sender == Waiting(s.sender.k) && t.reqs[s.sender.k].listening else t.sender == Idle)
            && (step.Refuse? || step.DeadlineFails? || step.ReportFailure? ==> t.sender == if s.reauth then Idle else Stopped)
            && (step.Insert? ==> t.sender == Writing(s.sender.k))
            && (step.WriteFails? ==> t.sender == Failing(s.sender.k))
            && (step.Dequeue? ==> s.queue != [] && t.sender == Holding(s.queue[0]) && t.queue == s.queue[1..])
            && (step.Resend? ==> t.sender == Holding(t.draws) && t.draws == s.draws + 1)
            && (step.ResendAnswered? ==> t.sender == Idle && t.reauth == s.reauth)
            && (step.EndReauth? ==> t.sender == Idle && !t.reauth)
            && (step.StopSender? ==> t.sender == Stopped)
            && (!step.EndReauth? ==> t.reauth == s.reauth)
  {
    hide XidOf;
  }

  /** recvLoop forgets what it looks up, reads on after an answer unless it answered
      a close request, and closes closeChan when it returns. */
  lemma {:induction false} ReceiverGoesOn(s: State, step: Step)
    requires Enabled(s, step) && ByReceiver(step)
    ensures var t := Apply(s, step);
            && (step.Receive? && step.xid in s.pending ==>
                  t.receiver == Handing(s.pending[step.xid]) && t.pending == s.pending - {step.xid})
            && (step.Receive? && step.xid !in s.pending ==> t == s)
            && (step.Deliver? ==> t.receiver == (if s.reqs[s.receiver.k].isClose then Ended else Reading) && t.pending == s.pending)
            && (step.StopReceiver? ==> t.receiver == Done && t.closed)
            && (!step.StopReceiver? ==> t.closed == s.closed)
  {
    hide XidOf;
  }

  /** The connection loop: a new connection after every flush but the last one. */
  lemma {:induction false} LoopGoesOn(s: State, step: Step)
    requires Enabled(s, step) && ByLoop(step)
    ensures var t := Apply(s, step);
            && (step.Authenticated? ==> t.phase == Up && t.conn == s.conn + 1 && !t.closed && t.reauth && t.receiver == Reading)
            && (step.Disconnect? ==> t.phase == Flushing(if s.quit then ErrClosing else ErrConnectionClosed))
            && (step.AuthFails? && !s.quit ==> t.phase == Flushing(if step.expired then ErrSessionExpired else ErrConnectionClosed))
            && (step.AuthFails? && s.quit ==> t.phase == Flushing(ErrClosing))
            && (step.FlushDone? ==> t.phase == if s.phase.error == ErrClosing then Quit else Connecting)
            && (step.FlushOne? ==> t.phase == s.phase && t.pending == s.pending - {step.xid})
            && (step.FlushUnsent? ==> t.phase == s.phase && s.queue != [] && t.queue == s.queue[1..])
            && (step.QuitConnecting? ==> t.phase == Quit)
            && (!step.Authenticated? ==> t.conn == s.conn)
  {
    hide XidOf;
  }

  // ----- the errors of a flush

  /** After a lost connection the flush gives ErrConnectionClosed, after Close
      ErrClosing; with an expired session there is nothing to flush. */
  predicate FlushPhase(s: State)
  {
    && (s.phase.Flushing? ==>
          || s.phase.error == ErrConnectionClosed
          || (s.phase.error == ErrClosing && s.quit)
          || (s.phase.error == ErrSessionExpired && s.pending == map[]))
    && (s.phase.Quit? ==> s.quit)
    && (s.phase.Connecting? ==> s.pending == map[])
  }

  lemma {:induction false} FlushPhaseStays(s: State, step: Step)
    requires FlushPhase(s) && Phased(s) && Enabled(s, step)
    ensures FlushPhase(Apply(s, step)) && (s.quit ==> Apply(s, step).quit)
    ensures Apply(s, step).quit <==> s.quit || step.CloseConn?
  {
    hide Enabled, Apply, ByCaller, BySender, ByReceiver, FlushPhase;
    if ByCaller(step) {
      CallerPhase(s, step);
    } else if BySender(step) {
      SenderPhase(s, step);
    } else {
      OtherPhase(s, step);
    }
  }

  lemma {:induction false} CallerPhase(s: State, step: Step)
    requires FlushPhase(s) && Enabled(s, step) && ByCaller(step)
    ensures FlushPhase(Apply(s, step)) && (Apply(s, step).quit <==> s.quit || step.CloseConn?)
  {
    hide XidOf, SetRequest;
  }

  lemma {:induction false} SenderPhase(s: State, step: Step)
    requires FlushPhase(s) && Enabled(s, step) && BySender(step)
    ensures FlushPhase(Apply(s, step)) && (Apply(s, step).quit <==> s.quit || step.CloseConn?)
  {
    hide XidOf, SetRequest, Answer, SendOk, Inserted;
  }

  lemma {:induction false} OtherPhase(s: State, step: Step)
    requires FlushPhase(s) && Phased(s) && Enabled(s, step) && !ByCaller(step) && !BySender(step)
    ensures FlushPhase(Apply(s, step)) && (Apply(s, step).quit <==> s.quit || step.CloseConn?)
  {
    hide XidOf, SetRequest, Answer;
  }

  /** An answer carries only an error that its step may give. */
  predicate Plausible(o: Outcome, quit: bool)
  {
    match o
    case Flushed(error) => error == ErrConnectionClosed || (error == ErrClosing && quit)
    case Unsent(error) => error == ErrNoServer || (error == ErrClosing && quit)
    case _ => true
  }

  predicate AllPlausible(answers: seq<Outcome>, quit: bool)
  {
    forall i :: 0 <= i < |answers| ==> Plausible(answers[i], quit)
  }

  ghost predicate ErrInv(s: State)
  {
    FlushPhase(s) && forall k :: k in s.reqs ==> AllPlausible(s.reqs[k].answers, s.quit)
  }

  lemma {:induction false} GivenPlausible(s: State, step: Step, k: nat)
    requires FlushPhase(s) && Enabled(s, step)
    ensures AllPlausible(Given(s, step, k), s.quit)
  {
    hide XidOf;
  }

  lemma {:induction false} PlausibleConcat(a: seq<Outcome>, b: seq<Outcome>, was: bool, now: bool)
    requires AllPlausible(a, was) && AllPlausible(b, was) && (was ==> now)
    ensures AllPlausible(a + b, now)
  {
  }

  lemma {:induction false} StepErrors(s: State, step: Step)
    requires Inv(s) && ErrInv(s) && Enabled(s, step)
    ensures ErrInv(Apply(s, step))
  {
    hide Enabled, Apply, FlushPhase, Keyed, Phased, AllSound, AllPlausible, Given;
    FlushPhaseStays(s, step);
    var t := Apply(s, step);
    forall k: nat | k in t.reqs ensures AllPlausible(t.reqs[k].answers, t.quit) {
      if k in s.reqs {
        StepGives(s, step, k);
        GivenPlausible(s, step, k);
        PlausibleConcat(s.reqs[k].answers, Given(s, step, k), s.quit, t.quit);
      } else {
        NewAnswers(s, step, k);
        NothingPlausible(t.quit);
      }
    }
  }

  lemma {:induction false} NothingPlausible(quit: bool)
    ensures AllPlausible([], quit)
  {
  }

  lemma {:induction false} RunErrors(states: seq<State>, steps: seq<Step>, i: nat)
    requires IsRun(states, steps) && i < |states|
    ensures ErrInv(states[i])
    ensures states[i].quit <==> exists j :: 0 <= j < i && steps[j].CloseConn?
  {
    hide Enabled, Apply, FlushPhase, Phased, AllPlausible, Keyed, AllSound;
    if i == 0 {
      InitErrors(states[0]);
    } else {
      RunErrors(states, steps, i - 1);
      RunInv(states, steps, i - 1);
      FlushPhaseStays(states[i - 1], steps[i - 1]);
      StepErrors(states[i - 1], steps[i - 1]);
    }
  }

  lemma {:induction false} InitErrors(s: State)
    requires Init(s)
    ensures ErrInv(s) && !s.quit
  {
  }

  /** Over every run a flush answers ErrConnectionClosed, or ErrClosing once Close
      was called. ErrSessionExpired is never such an answer. */
  lemma {:induction false} FlushErrors(states: seq<State>, steps: seq<Step>, i: nat, k: nat, e: Error)
    requires IsRun(states, steps) && i < |states| && k in states[i].reqs && Flushed(e) in states[i].reqs[k].answers
    ensures e == ErrConnectionClosed || (e == ErrClosing && exists j :: 0 <= j < i && steps[j].CloseConn?)
    ensures e != ErrSessionExpired
  {
    hide IsRun, FlushPhase;
    RunErrors(states, steps, i);
  }

  /** A request flushed from sendChan gets ErrNoServer, or ErrClosing after Close. */
  lemma {:induction false} UnsentErrors(states: seq<State>, steps: seq<Step>, i: nat, k: nat, e: Error)
    requires IsRun(states, steps) && i < |states| && k in states[i].reqs && Unsent(e) in states[i].reqs[k].answers
    ensures e == ErrNoServer || (e == ErrClosing && exists j :: 0 <= j < i && steps[j].CloseConn?)
  {
    hide IsRun, FlushPhase;
    RunErrors(states, steps, i);
  }

  /** The client quits only after Close. */
  lemma {:induction false} QuitsOnlyAfterClose(states: seq<State>, steps: seq<Step>, i: nat)
    requires IsRun(states, steps) && i < |states| && states[i].phase.Quit?
    ensures exists j :: 0 <= j < i && steps[j].CloseConn?
  {
    hide IsRun, AllPlausible;
    RunErrors(states, steps, i);
  }

  /** sendChan holds at most sixteen requests. */
  lemma {:induction false} QueueBounded(states: seq<State>, steps: seq<Step>, i: nat)
    requires IsRun(states, steps) && i < |states|
    ensures |states[i].queue| <= 16
  {
    hide Apply;
    if i > 0 {
      QueueBounded(states, steps, i - 1);
      QueueGrowth(states[i - 1], steps[i - 1]);
    }
  }

  lemma {:induction false} QueueGrowth(s: State, step: Step)
    requires Enabled(s, step) && |s.queue| <= 16
    ensures |Apply(s, step).queue| <= 16
  {
    hide XidOf, SetRequest, Answer, SendOk, Inserted;
    if !step.Enqueue? && !step.Dequeue? && !step.FlushUnsent? {
      QueueStays(s, step);
    }
  }
}
