/** The request multiplexer of a connection (zk/conn.go:452-965) as a step system.

    A request is named by the number of its id draw, so its id on the wire is
    XidOf(k). Any server reply, any I/O failure and any interleaving of callers,
    sender, receiver and the connection loop is a possible step. A step that
    sends on a response channel can happen only while the channel has room. */
module RequestEngine {
  import opened Text
  import opened Errors
  import opened Xid

  const SEND_CHAN_SIZE: nat := 16

  /** What was sent on a request's response channel. */
  datatype Outcome =
    | EncodeFailed
    | Refused              // closeChan was already closed
    | WriteFailed
    | Reply(conn: nat)     // a server reply read on that connection
    | Flushed(error: Error)
    | Unsent(error: Error)

  /** sendData runs in one goroutine at a time: first in resendZkAuth, and in
      sendLoop once the credentials are through. */
  datatype Sender =
    | Idle
    | Holding(k: nat)      // in sendData, before the pending map
    | Writing(k: nat)      // in sendData, after the pending map
    | Failing(k: nat)      // in sendData, the write failed, not reported yet
    | Waiting(k: nat)      // resendZkAuth waiting for its answer
    | Stopped              // sendLoop returned

  datatype Receiver =
    | Reading
    | Handing(k: nat)      // taken out of the pending map, not answered yet
    | Ended                // answered a close request and will read no more
    | Done                 // recvLoop returned and closed closeChan

  datatype Phase = Connecting | Up | Flushing(error: Error) | Quit

  /** A request and its response channel. */
  datatype Request = Request(
    answers: seq<Outcome>,   // everything sent on the channel
    taken: bool,             // the first answer was read
    listening: bool,         // somebody will read the channel
    calling: bool,           // in queueRequest, not yet in sendChan
    isClose: bool,           // Conn.Close made it
    resent: bool,            // resendZkAuth made it
    on: Option<nat>          // the connection on which it entered the pending map
  )

  datatype State = State(
    reqs: map<nat, Request>,   // by draw number
    draws: nat,                // ids drawn so far
    queue: seq<nat>,           // sendChan
    sender: Sender,
    reauth: bool,              // the sender is resendZkAuth
    pending: map<nat, nat>,    // requests
    displaced: set<nat>,       // overwritten in the pending map
    receiver: Receiver,
    conn: nat,                 // connections begun so far
    phase: Phase,
    closed: bool,              // closeChan is closed
    quit: bool                 // shouldQuit is closed
  )

  datatype Step =
    | Draw(isClose: bool) | Enqueue(k: nat) | TakeAnswer(k: nat) | GiveUp(k: nat) | CloseConn
    | Dequeue | Resend | EncodeFails | Refuse | Insert
    | DeadlineFails | WriteFails | ReportFailure | WriteSucceeds
    | ResendAnswered | EndReauth | StopSender
    | Receive(xid: nat) | Deliver | StopReceiver
    | Authenticated | AuthFails(expired: bool) | Disconnect
    | FlushOne(xid: nat) | FlushDone | FlushUnsent(error: Error) | QuitConnecting

  /** Whose step it is. */
  predicate ByCaller(step: Step)
  {
    step.Draw? || step.Enqueue? || step.TakeAnswer? || step.GiveUp? || step.CloseConn?
  }

  predicate BySender(step: Step)
  {
    || step.Dequeue? || step.Resend? || step.EncodeFails? || step.Refuse? || step.Insert?
    || step.DeadlineFails? || step.WriteFails? || step.ReportFailure? || step.WriteSucceeds?
    || step.ResendAnswered? || step.EndReauth? || step.StopSender?
  }

  /** A step of sendData. */
  predicate InSendData(step: Step)
  {
    || step.EncodeFails? || step.Refuse? || step.Insert?
    || step.DeadlineFails? || step.WriteFails? || step.ReportFailure? || step.WriteSucceeds?
  }

  predicate ByReceiver(step: Step)
  {
    step.Receive? || step.Deliver? || step.StopReceiver?
  }

  predicate ByLoop(step: Step)
  {
    !ByCaller(step) && !BySender(step) && !ByReceiver(step)
  }

  ghost predicate Init(s: State)
  {
    s == State(map[], 0, [], Stopped, false, map[], {}, Done, 0, Connecting, true, false)
  }

  /** The channel of request k has room: it buffers one answer. */
  predicate Room(s: State, k: nat)
  {
    k in s.reqs && |s.reqs[k].answers| == if s.reqs[k].taken then 1 else 0
  }

  predicate Listened(s: State, k: nat)
  {
    k in s.reqs && s.reqs[k].listening
  }

  predicate Enabled(s: State, step: Step)
  {
    match step
    case Draw(_) => true
    case Enqueue(k) => k in s.reqs && s.reqs[k].calling && |s.queue| < SEND_CHAN_SIZE
    case TakeAnswer(k) => Listened(s, k) && s.reqs[k].answers != [] && s.sender != Waiting(k)
    case GiveUp(k) => Listened(s, k) && s.reqs[k].isClose && !s.reqs[k].calling
    case CloseConn => true
    case Dequeue => s.phase.Up? && s.sender.Idle? && !s.reauth && s.queue != []
    case Resend => s.phase.Up? && s.sender.Idle? && s.reauth
    case EncodeFails => s.phase.Up? && s.sender.Holding? && Room(s, s.sender.k)
    case Refuse => s.phase.Up? && s.sender.Holding? && s.closed && Room(s, s.sender.k)
    case Insert => s.phase.Up? && s.sender.Holding? && s.sender.k in s.reqs && !s.closed
    case DeadlineFails => s.phase.Up? && s.sender.Writing?
    case WriteFails => s.phase.Up? && s.sender.Writing?
    case ReportFailure => s.phase.Up? && s.sender.Failing? && Room(s, s.sender.k)
    case WriteSucceeds => s.phase.Up? && s.sender.Writing? && s.sender.k in s.reqs
    case ResendAnswered => s.phase.Up? && s.sender.Waiting? && Listened(s, s.sender.k) && s.reqs[s.sender.k].answers != []
    case EndReauth => s.phase.Up? && s.reauth && (s.sender.Idle? || (s.sender.Waiting? && (s.closed || s.quit)))
    case StopSender => s.phase.Up? && s.sender.Idle? && !s.reauth
    case Receive(_) => s.phase.Up? && s.receiver.Reading?
    case Deliver => s.phase.Up? && s.receiver.Handing? && Room(s, s.receiver.k)
    case StopReceiver => s.phase.Up? && (s.receiver.Reading? || s.receiver.Ended?)
    case Authenticated => s.phase.Connecting?
    case AuthFails(_) => s.phase.Connecting?
    case Disconnect => s.phase.Up? && s.sender.Stopped? && s.receiver.Done?
    case FlushOne(xid) => s.phase.Flushing? && xid in s.pending && Room(s, s.pending[xid])
    case FlushDone => s.phase.Flushing? && s.pending == map[]
    case FlushUnsent(error) =>
      && s.phase.Connecting? && s.queue != [] && Room(s, s.queue[0])
      && (error == ErrNoServer || (error == ErrClosing && s.quit))   // connect calls it with these
    case QuitConnecting => s.phase.Connecting? && s.quit && s.queue == []
  }

  function SetRequest(s: State, k: nat, r: Request): (s': State)
    ensures s'.reqs.Keys == s.reqs.Keys + {k} && s' == s.(reqs := s'.reqs)
  {
    s.(reqs := s.reqs[k := r])
  }

  function Answered(r: Request, outcome: Outcome): Request
  {
    r.(answers := r.answers + [outcome])
  }

  function Answer(s: State, k: nat, outcome: Outcome): (s': State)
    requires k in s.reqs
    ensures s'.reqs.Keys == s.reqs.Keys && s' == s.(reqs := s'.reqs)
  {
    SetRequest(s, k, Answered(s.reqs[k], outcome))
  }

  function TookAnswer(r: Request): Request
  {
    r.(taken := true, listening := false)
  }

  function Drawn(s: State, r: Request): State
  {
    SetRequest(s, s.draws + 1, r).(draws := s.draws + 1)
  }

  /** sendData returned nil: resendZkAuth waits, sendLoop goes on. */
  function SendOk(s: State, k: nat): (s': State)
    requires k in s.reqs
    ensures s'.reqs.Keys == s.reqs.Keys && s' == s.(reqs := s'.reqs, sender := s'.sender)
  {
    if s.reauth
    then SetRequest(s, k, s.reqs[k].(listening := true)).(sender := Waiting(k))
    else s.(sender := Idle)
  }

  /** sendData returned an error: resendZkAuth drops the channel and goes on,
      sendLoop returns. */
  function SendErr(s: State): State
  {
    s.(sender := if s.reauth then Idle else Stopped)
  }

  /** The pending map gets k; an entry under the same id is lost. */
  function Inserted(s: State, k: nat): (s': State)
    requires k in s.reqs
    ensures s'.reqs.Keys == s.reqs.Keys
    ensures s' == s.(reqs := s'.reqs, pending := s'.pending, displaced := s'.displaced, sender := Writing(k))
  {
    var x := XidOf(k);
    SetRequest(s, k, s.reqs[k].(on := Some(s.conn))).(
      sender := Writing(k), pending := s.pending[x := k],
      displaced := if x in s.pending then s.displaced + {s.pending[x]} else s.displaced)
  }

  function Leaving(s: State, error: Error): Phase
  {
    Flushing(if s.quit then ErrClosing else error)
  }

  function Apply(s: State, step: Step): State
    requires Enabled(s, step)
  {
    match step
    case Draw(isClose) => Drawn(s, Request([], false, true, true, isClose, false, None))
    case Enqueue(k) => SetRequest(s, k, s.reqs[k].(calling := false)).(queue := s.queue + [k])
    case TakeAnswer(k) => SetRequest(s, k, TookAnswer(s.reqs[k]))
    case GiveUp(k) => SetRequest(s, k, s.reqs[k].(listening := false))
    case CloseConn => s.(quit := true)
    case Dequeue => s.(sender := Holding(s.queue[0]), queue := s.queue[1..])
    case Resend =>
      Drawn(s, Request([], false, false, false, false, true, None)).(sender := Holding(s.draws + 1))
    case EncodeFails => SendOk(Answer(s, s.sender.k, EncodeFailed), s.sender.k)
    case Refuse => SendErr(Answer(s, s.sender.k, Refused))
    case Insert => Inserted(s, s.sender.k)
    case DeadlineFails => SendErr(s)
    case WriteFails => s.(sender := Failing(s.sender.k))
    case ReportFailure => SendErr(Answer(s, s.sender.k, WriteFailed))
    case WriteSucceeds => SendOk(s, s.sender.k)
    case ResendAnswered => SetRequest(s, s.sender.k, TookAnswer(s.reqs[s.sender.k])).(sender := Idle)
    case EndReauth =>
      (if s.sender.Waiting? && s.sender.k in s.reqs
       then SetRequest(s, s.sender.k, s.reqs[s.sender.k].(listening := false)) else s).(
        reauth := false, sender := Idle)
    case StopSender => s.(sender := Stopped)
    case Receive(xid) =>
      if xid in s.pending then s.(pending := s.pending - {xid}, receiver := Handing(s.pending[xid])) else s
    case Deliver =>
      var k := s.receiver.k;
      Answer(s, k, Reply(s.conn)).(receiver := if s.reqs[k].isClose then Ended else Reading)
    case StopReceiver => s.(receiver := Done, closed := true)
    case Authenticated =>
      s.(phase := Up, conn := s.conn + 1, closed := false, sender := Idle, reauth := true, receiver := Reading)
    case AuthFails(expired) =>
      s.(phase := Leaving(s, if expired then ErrSessionExpired else ErrConnectionClosed))
    case Disconnect => s.(phase := Leaving(s, ErrConnectionClosed))
    case FlushOne(xid) =>
      Answer(s, s.pending[xid], Flushed(s.phase.error)).(pending := s.pending - {xid})
    case FlushDone => s.(phase := if s.phase.error.ErrClosing? then Quit else Connecting)
    case FlushUnsent(error) => Answer(s, s.queue[0], Unsent(error)).(queue := s.queue[1..])
    case QuitConnecting => s.(phase := Quit)
  }

  /** A run: states[0] is initial and steps[i] leads from states[i] to states[i+1]. */
  ghost predicate IsRun(states: seq<State>, steps: seq<Step>)
  {
    && |states| == |steps| + 1
    && Init(states[0])
    && Follows(states, steps)
  }

  ghost predicate Follows(states: seq<State>, steps: seq<Step>)
    requires |states| == |steps| + 1
  {
    forall i :: 0 <= i < |steps| ==> Enabled(states[i], steps[i]) && states[i + 1] == Apply(states[i], steps[i])
  }

  /** The steps lead from s to s'. */
  ghost predicate Takes(s: State, steps: seq<Step>, s': State)
    decreases |steps|
  {
    if steps == [] then s == s'
    else Enabled(s, steps[0]) && Takes(Apply(s, steps[0]), steps[1..], s')
  }

  lemma {:induction false} TakesNone(s: State)
    ensures Takes(s, [], s)
  {
  }

  lemma {:induction false} TakesFirst(s: State, a: Step, steps: seq<Step>, s': State)
    requires Enabled(s, a) && Takes(Apply(s, a), steps, s')
    ensures Takes(s, [a] + steps, s')
  {
    hide Enabled, Apply;
    assert ([a] + steps)[1..] == steps;
  }

  lemma {:induction false} TakesOne(s: State, a: Step)
    requires Enabled(s, a)
    ensures Takes(s, [a], Apply(s, a))
  {
    hide Enabled, Apply;
    assert Takes(Apply(s, a), [a][1..], Apply(s, a));
  }

  lemma {:induction false} TakesTwo(s: State, a: Step, b: Step)
    requires Enabled(s, a) && Enabled(Apply(s, a), b)
    ensures Takes(s, [a, b], Apply(Apply(s, a), b))
  {
    hide Enabled, Apply;
    TakesOne(Apply(s, a), b);
    assert [a, b][1..] == [b];
  }

  lemma {:induction false} TakesMore(s: State, steps: seq<Step>, s': State, a: Step)
    requires Takes(s, steps, s') && Enabled(s', a)
    ensures Takes(s, steps + [a], Apply(s', a))
    decreases |steps|
  {
    hide Enabled, Apply;
    if steps == [] {
      TakesOne(s, a);
    } else {
      TakesMore(Apply(s, steps[0]), steps[1..], s', a);
      assert (steps + [a])[1..] == steps[1..] + [a];
    }
  }
}
