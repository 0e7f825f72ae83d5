/** The request methods of Conn (zk/conn.go:563-582, 752-795, 913-965), each
    proved to take the steps of the multiplexer. What the network does comes in
    as parameters. */
module RequestConn {
  import opened Text
  import opened Errors
  import opened Xid
  import opened RequestEngine
  import opened RequestInvariant
  import opened RequestTheorems

  const OP_CLOSE: int := -11

  datatype Rq = Rq(number: nat, xid: nat, opcode: int)

  /** A response channel of capacity 1: all that was sent, and whether the first was read. */
  datatype Channel = Channel(sent: seq<Outcome>, taken: bool)

  predicate HasRoom(c: Channel)
  {
    |c.sent| == if c.taken then 1 else 0
  }

  /** What can go wrong in sendData. */
  datatype Fault = NoFault | EncodeFault | DeadlineFault | WriteFault | ClearDeadlineFault

  /** The request object is the one the step system calls rq.number. */
  predicate Known(rq: Rq, st: State)
  {
    && rq.xid == XidOf(rq.number)
    && rq.number in st.reqs
    && (rq.opcode == OP_CLOSE <==> st.reqs[rq.number].isClose)
  }

  predicate PendingRep(requests: map<nat, Rq>, st: State)
  {
    && requests.Keys == st.pending.Keys
    && forall x :: x in requests ==> requests[x].number == st.pending[x] && Known(requests[x], st)
  }

  predicate QueueRep(sendChan: seq<Rq>, st: State)
  {
    && |sendChan| == |st.queue|
    && forall i :: 0 <= i < |sendChan| ==> sendChan[i].number == st.queue[i] && Known(sendChan[i], st)
  }

  predicate ChannelsRep(channels: map<nat, Channel>, st: State)
  {
    && channels.Keys == st.reqs.Keys
    && forall k :: k in channels ==> channels[k] == Channel(st.reqs[k].answers, st.reqs[k].taken)
  }

  function Sent(channels: map<nat, Channel>, k: nat, o: Outcome): map<nat, Channel>
    requires k in channels
  {
    channels[k := channels[k].(sent := channels[k].sent + [o])]
  }

  datatype Fields = Fields(xid: nat, closeChan: bool, requests: map<nat, Rq>, sendChan: seq<Rq>, channels: map<nat, Channel>)

  predicate Rep(f: Fields, st: State)
  {
    && f.xid == Counter(st.draws) && f.closeChan == st.closed
    && PendingRep(f.requests, st) && QueueRep(f.sendChan, st) && ChannelsRep(f.channels, st)
  }

  lemma {:induction false} AnswerRep(f: Fields, st: State, k: nat, o: Outcome)
    requires Rep(f, st) && k in st.reqs
    ensures k in f.channels && Rep(f.(channels := Sent(f.channels, k, o)), Answer(st, k, o))
  {
    hide XidOf, Counter;
    var st' := Answer(st, k, o);
    forall rq: Rq | Known(rq, st) ensures Known(rq, st') {}
  }

  /** The parts of the requests that the program's objects hold are the same. */
  predicate SameObjects(st: State, st': State)
  {
    && st'.reqs.Keys == st.reqs.Keys
    && (forall k :: k in st.reqs ==>
          st'.reqs[k].answers == st.reqs[k].answers && st'.reqs[k].taken == st.reqs[k].taken &&
          st'.reqs[k].isClose == st.reqs[k].isClose)
    && st'.draws == st.draws && st'.closed == st.closed && st'.queue == st.queue
  }

  lemma {:induction false} SameRep(f: Fields, st: State, st': State)
    requires Rep(f, st) && SameObjects(st, st')
    ensures PendingRep(f.requests, st'.(pending := st.pending))
    ensures st'.pending == st.pending ==> Rep(f, st')
    ensures QueueRep(f.sendChan, st') && ChannelsRep(f.channels, st') && f.xid == Counter(st'.draws) && f.closeChan == st'.closed
  {
    hide XidOf, Counter;
  }

  lemma {:induction false} InsertRep(f: Fields, st: State, rq: Rq)
    requires Rep(f, st) && Known(rq, st)
    ensures Rep(f.(requests := f.requests[rq.xid := rq]), Inserted(st, rq.number))
  {
    hide Counter, QueueRep, ChannelsRep, Rep;
    var st' := Inserted(st, rq.number);
    InsertedSame(st, rq.number);
    SameRep(f, st, st');
    InsertPending(f.requests, st'.(pending := st.pending), rq);
    assert Rep(f.(requests := f.requests[rq.xid := rq]), st') by {
      RepFromParts(f.(requests := f.requests[rq.xid := rq]), st');
    }
  }

  lemma {:induction false} RepFromParts(f: Fields, st: State)
    requires f.xid == Counter(st.draws) && f.closeChan == st.closed
    requires PendingRep(f.requests, st) && QueueRep(f.sendChan, st) && ChannelsRep(f.channels, st)
    ensures Rep(f, st)
  {
    hide Counter, PendingRep, QueueRep, ChannelsRep;
  }

  lemma {:induction false} InsertedSame(st: State, k: nat)
    requires k in st.reqs
    ensures SameObjects(st, Inserted(st, k)) && Inserted(st, k).pending == st.pending[XidOf(k) := k]
  {
    hide XidOf;
  }

  lemma {:induction false} InsertPending(requests: map<nat, Rq>, st: State, rq: Rq)
    requires PendingRep(requests, st) && Known(rq, st)
    ensures forall st': State :: st'.reqs == st.reqs && st'.pending == st.pending[rq.xid := rq.number] ==>
              PendingRep(requests[rq.xid := rq], st')
  {
    hide XidOf;
  }

  lemma {:induction false} SentRep(f: Fields, st: State, k: nat)
    requires Rep(f, st) && k in st.reqs
    ensures Rep(f, SendOk(st, k))
    ensures Rep(f, SendErr(st))
  {
    hide Counter, Rep;
    SameRep(f, st, SendOk(st, k));
    SameRep(f, st, SendErr(st));
  }

  // ----- sendData

  /** The state after sendData(k) under a fault. */
  function AfterSend(s: State, k: nat, fault: Fault): (s': State)
    requires k in s.reqs
    ensures s'.draws == s.draws && s'.conn == s.conn && s'.queue == s.queue
  {
    if fault.EncodeFault? then SendOk(Answer(s, k, EncodeFailed), k)
    else if s.closed then SendErr(Answer(s, k, Refused))
    else if fault.NoFault? then SendOk(Inserted(s, k), k)
    else if fault.WriteFault? then SendErr(Answer(Inserted(s, k), k, WriteFailed))
    else SendErr(Inserted(s, k))
  }

  function SendSteps(closed: bool, fault: Fault): seq<Step>
  {
    if fault.EncodeFault? then [EncodeFails]
    else if closed then [Refuse]
    else if fault.NoFault? then [Insert, WriteSucceeds]
    else if fault.WriteFault? then [Insert, WriteFails, ReportFailure]
    else [Insert, DeadlineFails]
  }

  lemma {:induction false} SendTakesSteps(s: State, fault: Fault)
    requires Inv(s) && s.phase.Up? && s.sender.Holding?
    ensures s.sender.k in s.reqs && Takes(s, SendSteps(s.closed, fault), AfterSend(s, s.sender.k, fault))
  {
    hide Inv, Takes, XidOf, SendOk, Answer;
    EarlyAnswersHaveRoom(s);
    if fault.EncodeFault? {
      TakesOne(s, EncodeFails);
    } else if s.closed {
      TakesOne(s, Refuse);
    } else {
      WriteTakesSteps(s, fault);
    }
  }

  lemma {:induction false} WriteTakesSteps(s: State, fault: Fault)
    requires s.phase.Up? && s.sender.Holding? && !s.closed && Room(s, s.sender.k) && !fault.EncodeFault?
    ensures Takes(s, SendSteps(false, fault), AfterSend(s, s.sender.k, fault))
  {
    hide Takes, XidOf, SendOk, Answer, Inserted, Room;
    var k := s.sender.k;
    InsertedRoom(s, k);
    var m := Inserted(s, k);
    assert Apply(s, Insert) == m;
    if fault.NoFault? {
      TakesTwo(s, Insert, WriteSucceeds);
    } else if fault.WriteFault? {
      FailureTakesSteps(m, k);
      TakesFirst(s, Insert, [WriteFails, ReportFailure], AfterSend(s, k, fault));
      assert [Insert] + [WriteFails, ReportFailure] == SendSteps(false, fault);
    } else {
      TakesTwo(s, Insert, DeadlineFails);
    }
  }

  lemma {:induction false} InsertedRoom(s: State, k: nat)
    requires Room(s, k)
    ensures k in s.reqs && Room(Inserted(s, k), k)
  {
    hide XidOf;
  }

  lemma {:induction false} FailureTakesSteps(m: State, k: nat)
    requires m.phase.Up? && m.sender == Writing(k) && Room(m, k)
    ensures Takes(m, [WriteFails, ReportFailure], SendErr(Answer(m, k, WriteFailed)))
  {
    hide Takes, XidOf;
    TakesTwo(m, WriteFails, ReportFailure);
    assert Answer(m.(sender := Failing(k)), k, WriteFailed) == Answer(m, k, WriteFailed).(sender := Failing(k));
  }

  // ----- queueRequest

  lemma {:induction false} DrawRep(f: Fields, st: State, isClose: bool)
    requires Rep(f, st) && Inv(st)
    ensures st.draws + 1 !in st.reqs
    ensures Rep(f.(xid := (f.xid + 1) % WORD_SIZE, channels := f.channels[st.draws + 1 := Channel([], false)]),
                Apply(st, Draw(isClose)))
  {
    hide XidOf, NoRepeats, HasTwin, Phased, AllSound;
    var st' := Apply(st, Draw(isClose));
    forall rq: Rq | Known(rq, st) ensures Known(rq, st') {}
  }

  lemma {:induction false} EnqueueRep(f: Fields, st: State, rq: Rq)
    requires Rep(f, st) && Known(rq, st) && Enabled(st, Enqueue(rq.number))
    ensures Rep(f.(sendChan := f.sendChan + [rq]), Apply(st, Enqueue(rq.number)))
  {
    hide XidOf, Counter;
    var st' := Apply(st, Enqueue(rq.number));
    forall r: Rq | Known(r, st) ensures Known(r, st') {}
  }

  // ----- recvLoop

  lemma {:induction false} ReceiveRep(f: Fields, st: State, id: nat)
    requires Rep(f, st) && Enabled(st, Receive(id)) && id in f.requests
    ensures id in st.pending && st.pending[id] == f.requests[id].number && Known(f.requests[id], Apply(st, Receive(id)))
    ensures Rep(f.(requests := f.requests - {id}), Apply(st, Receive(id)))
  {
    hide XidOf, Counter;
  }

  lemma {:induction false} DeliverRep(f: Fields, st: State)
    requires Rep(f, st) && Enabled(st, Deliver)
    ensures st.receiver.k in f.channels
    ensures Rep(f.(channels := Sent(f.channels, st.receiver.k, Reply(st.conn))), Apply(st, Deliver))
  {
    hide XidOf, Counter, Rep, Answer;
    var k, o := st.receiver.k, Reply(st.conn);
    AnswerRep(f, st, k, o);
    SameRep(f.(channels := Sent(f.channels, k, o)), Answer(st, k, o), Apply(st, Deliver));
  }

  lemma {:induction false} RoomRep(channels: map<nat, Channel>, st: State, k: nat)
    requires ChannelsRep(channels, st) && k in st.reqs
    ensures k in channels && (HasRoom(channels[k]) <==> Room(st, k))
  {
  }

  // ----- flushRequests

  /** The state when flushRequests still has the requests under the ids in todo. */
  function PartlyFlushed(s: State, todo: set<nat>, error: Error): State
  {
    s.(pending := map x | x in s.pending && x in todo :: s.pending[x],
       reqs := map k | k in s.reqs ::
         if AtPending(s, k) && XidOf(k) !in todo then Answered(s.reqs[k], Flushed(error)) else s.reqs[k])
  }

  /** flushRequests: every pending request gets the error and the map is empty. */
  function FlushedState(s: State, error: Error): State
  {
    s.(pending := map[],
       reqs := map k | k in s.reqs :: if AtPending(s, k) then Answered(s.reqs[k], Flushed(error)) else s.reqs[k])
  }

  lemma {:induction false} FlushStep(s: State, todo: set<nat>, error: Error, x: nat)
    requires Keyed(s) && s.phase == Flushing(error) && x in s.pending && x in todo && Room(s, s.pending[x])
    ensures var mid := PartlyFlushed(s, todo, error);
            Enabled(mid, FlushOne(x)) && Apply(mid, FlushOne(x)) == PartlyFlushed(s, todo - {x}, error)
  {
    hide Keyed, Counter, XidOf;
    var mid, k := PartlyFlushed(s, todo, error), s.pending[x];
    PendingKnown(s, x);
    assert mid.pending[x] == k && mid.reqs[k] == s.reqs[k];
    var after := PartlyFlushed(s, todo - {x}, error);
    assert mid.pending - {x} == after.pending;
    FlushedRequests(s, todo, error, x);
    assert Apply(mid, FlushOne(x)) == Answer(mid, k, Flushed(error)).(pending := after.pending);
  }

  lemma {:induction false} FlushedRequests(s: State, todo: set<nat>, error: Error, x: nat)
    requires Keyed(s) && x in s.pending && x in todo
    ensures var mid, k := PartlyFlushed(s, todo, error), s.pending[x];
            k in mid.reqs && mid.reqs[k := Answered(mid.reqs[k], Flushed(error))] == PartlyFlushed(s, todo - {x}, error).reqs
  {
    hide Keyed, Counter, XidOf;
    PendingKnown(s, x);
  }

  lemma {:induction false} FlushStarts(s: State, error: Error)
    requires Keyed(s)
    ensures PartlyFlushed(s, s.pending.Keys, error) == s
  {
    hide Counter, NoRepeats, HasTwin;
    var p := PartlyFlushed(s, s.pending.Keys, error);
    assert p.pending == s.pending;
    assert p.reqs == s.reqs;
  }

  lemma {:induction false} FlushEnds(s: State, error: Error)
    ensures PartlyFlushed(s, {}, error) == FlushedState(s, error)
    ensures FlushedState(s, error).draws == s.draws && FlushedState(s, error).conn == s.conn
  {
    hide XidOf;
    assert PartlyFlushed(s, {}, error).pending == map[];
    assert PartlyFlushed(s, {}, error).reqs == FlushedState(s, error).reqs;
  }

  lemma {:induction false} FlushRep(f: Fields, st: State, x: nat)
    requires Rep(f, st) && Enabled(st, FlushOne(x)) && x in f.requests
    ensures f.requests[x].number in f.channels
    ensures Rep(f.(requests := f.requests - {x}, channels := Sent(f.channels, f.requests[x].number, Flushed(st.phase.error))), Apply(st, FlushOne(x)))
  {
    hide XidOf, Counter, QueueRep, ChannelsRep, Answer, Sent;
    var k, o := f.requests[x].number, Flushed(st.phase.error);
    AnswerRep(f, st, k, o);
    ForgetRep(f.(channels := Sent(f.channels, k, o)), Answer(st, k, o), x);
  }

  lemma {:induction false} ForgetRep(f: Fields, st: State, x: nat)
    requires Rep(f, st) && x in f.requests
    ensures Rep(f.(requests := f.requests - {x}), st.(pending := st.pending - {x}))
  {
    hide XidOf, Counter;
  }

  /** One turn of the loop in flushRequests. */
  lemma {:induction false} FlushTurn(f: Fields, s0: State, st: State, error: Error, x: nat)
    requires Inv(s0) && s0.phase == Flushing(error) && Inv(st) && st == PartlyFlushed(s0, f.requests.Keys, error)
    requires Rep(f, st) && x in f.requests
    ensures x in s0.pending && AtPending(s0, s0.pending[x]) && f.requests[x].number == s0.pending[x] && f.requests[x].number in f.channels
    ensures HasRoom(f.channels[f.requests[x].number]) <==> Room(s0, s0.pending[x])
    ensures HasRoom(f.channels[f.requests[x].number]) ==>
              && Enabled(st, FlushOne(x)) && Inv(Apply(st, FlushOne(x)))
              && Apply(st, FlushOne(x)) == PartlyFlushed(s0, f.requests.Keys - {x}, error)
              && Rep(f.(requests := f.requests - {x}, channels := Sent(f.channels, f.requests[x].number, Flushed(error))), Apply(st, FlushOne(x)))
  {
    hide XidOf, Keyed, Phased, AllSound, Enabled, Apply, Sent, QueueRep, Counter;
    RestKnown(f.requests, s0, st, error, x);
    RoomRep(f.channels, st, f.requests[x].number);
    if HasRoom(f.channels[f.requests[x].number]) {
      FlushStep(s0, f.requests.Keys, error, x);
      StepInv(st, FlushOne(x));
      FlushRep(f, st, x);
    }
  }

  lemma {:induction false} RestKnown(rest: map<nat, Rq>, s0: State, st: State, error: Error, x: nat)
    requires Keyed(s0) && st == PartlyFlushed(s0, rest.Keys, error) && PendingRep(rest, st) && x in rest
    ensures x in s0.pending && AtPending(s0, s0.pending[x]) && rest[x].number == s0.pending[x]
    ensures s0.pending[x] in st.reqs && (Room(st, s0.pending[x]) <==> Room(s0, s0.pending[x]))
    ensures st.phase == s0.phase
  {
    hide Counter, NoRepeats, HasTwin;
    PendingKnown(s0, x);
    assert x in st.pending;
  }

  /** Before the first turn nothing is flushed. */
  lemma {:induction false} FlushBegins(f: Fields, st: State, error: Error)
    requires Inv(st) && Rep(f, st)
    ensures f.requests.Keys == st.pending.Keys && PartlyFlushed(st, f.requests.Keys, error) == st
  {
    FlushStarts(st, error);
  }

  // ----- flushUnsentRequests

  /** flushUnsentRequests: every queued request gets the error. */
  function UnsentState(s: State, error: Error): State
  {
    s.(queue := [], reqs := map k | k in s.reqs :: if k in s.queue then Answered(s.reqs[k], Unsent(error)) else s.reqs[k])
  }

  lemma {:induction false} UnsentStep(s: State, error: Error)
    requires Inv(s) && s.phase.Connecting? && s.queue != [] && Room(s, s.queue[0])
    requires error == ErrNoServer || (error == ErrClosing && s.quit)
    ensures Enabled(s, FlushUnsent(error))
    ensures UnsentState(Apply(s, FlushUnsent(error)), error) == UnsentState(s, error)
  {
    hide XidOf, HasTwin, AllSound;
    QueueKnown(s);
    var s' := Apply(s, FlushUnsent(error));
    assert UnsentState(s', error).reqs == UnsentState(s, error).reqs;
  }

  lemma {:induction false} UnsentEnds(s: State, error: Error)
    requires s.queue == []
    ensures UnsentState(s, error) == s
  {
    assert UnsentState(s, error).reqs == s.reqs;
  }

  lemma {:induction false} DequeueRep(f: Fields, st: State, error: Error)
    requires Rep(f, st) && Enabled(st, FlushUnsent(error)) && f.sendChan != []
    ensures f.sendChan[0].number == st.queue[0] && f.sendChan[0].number in f.channels
    ensures Rep(f.(sendChan := f.sendChan[1..], channels := Sent(f.channels, f.sendChan[0].number, Unsent(error))), Apply(st, FlushUnsent(error)))
  {
    hide Rep, Known, Room, Answer, Sent, Apply, Enabled;
    HeadRep(f, st);
    var k := f.sendChan[0].number;
    FlushUnsentIs(st, error);
    AnswerRep(f, st, k, Unsent(error));
    TailRep(f.(channels := Sent(f.channels, k, Unsent(error))), Answer(st, k, Unsent(error)));
  }

  lemma {:induction false} FlushUnsentIs(st: State, error: Error)
    requires Enabled(st, FlushUnsent(error))
    ensures st.queue != [] && st.queue[0] in st.reqs
    ensures Apply(st, FlushUnsent(error)) == Answer(st, st.queue[0], Unsent(error)).(queue := st.queue[1..])
  {
    hide Answer;
  }

  lemma {:induction false} HeadRep(f: Fields, st: State)
    requires Rep(f, st) && f.sendChan != []
    ensures st.queue != [] && f.sendChan[0].number == st.queue[0] && f.sendChan[0].number in st.reqs
  {
    hide Counter, XidOf, PendingRep, ChannelsRep;
  }

  lemma {:induction false} EmptyRep(sendChan: seq<Rq>, st: State)
    requires QueueRep(sendChan, st) && sendChan == []
    ensures st.queue == []
  {
  }

  lemma {:induction false} TailRep(f: Fields, st: State)
    requires Rep(f, st) && f.sendChan != []
    ensures st.queue != [] && Rep(f.(sendChan := f.sendChan[1..]), st.(queue := st.queue[1..]))
  {
    hide XidOf, Counter;
    var st' := st.(queue := st.queue[1..]);
    forall r: Rq | Known(r, st) ensures Known(r, st') {}
  }

  class Conn {
    var xid: nat                      // a uint32
    var conn: nat                     // connections begun
    var made: nat                     // requests allocated: stands for their identities
    var sendChan: seq<Rq>
    var requests: map<nat, Rq>
    var closeChan: bool               // closed
    var channels: map<nat, Channel>   // the recvChan of every request
    ghost var st: State

    function Now(): Fields
      reads this
    {
      Fields(xid, closeChan, requests, sendChan, channels)
    }

    ghost predicate Valid()
      reads this
    {
      Inv(st) && made == st.draws && conn == st.conn && Rep(Now(), st)
    }

    constructor ()
      ensures Valid() && Init(st)
    {
      xid, made, conn, sendChan, requests, closeChan, channels := 0, 0, 0, [], map[], true, map[];
      st := State(map[], 0, [], Stopped, false, map[], {}, Done, 0, Connecting, true, false);
    }

    /** sendData: the branch taken decides what the request's channel gets,
        whether the request is pending, and whether the sender stops. */
    method SendData(rq: Rq, fault: Fault) returns (failed: bool)
      requires Valid() && st.phase.Up? && st.sender == Holding(rq.number) && Known(rq, st)
      modifies this
      ensures Valid() && st == AfterSend(old(st), rq.number, fault)
      ensures failed <==> !fault.EncodeFault? && (old(closeChan) || !fault.NoFault?)
      ensures requests == if fault.EncodeFault? || old(closeChan) then old(requests) else old(requests)[rq.xid := rq]
      ensures sendChan == old(sendChan) && xid == old(xid) && closeChan == old(closeChan)
    {
      hide Inv, PendingRep, QueueRep, ChannelsRep, Counter, XidOf, Takes, Answer, Inserted, SendOk, SendErr, Enabled, Apply, Sent;
      ghost var s0, k := st, rq.number;
      SendTakesSteps(s0, fault);
      TakesInv(s0, SendSteps(s0.closed, fault), AfterSend(s0, k, fault));
      st := AfterSend(s0, k, fault);
      if fault.EncodeFault? {
        AnswerRep(Now(), s0, k, EncodeFailed);
        channels := Sent(channels, rq.number, EncodeFailed);
        SentRep(Now(), Answer(s0, k, EncodeFailed), k);
        return false;
      }
      if closeChan {
        AnswerRep(Now(), s0, k, Refused);
        channels := Sent(channels, rq.number, Refused);
        SentRep(Now(), Answer(s0, k, Refused), k);
        return true;
      }
      InsertRep(Now(), s0, rq);
      requests := requests[rq.xid := rq];
      SentRep(Now(), Inserted(s0, k), k);
      if fault.DeadlineFault? {
        return true;
      }
      if fault.WriteFault? {
        AnswerRep(Now(), Inserted(s0, k), k, WriteFailed);
        channels := Sent(channels, rq.number, WriteFailed);
        SentRep(Now(), Answer(Inserted(s0, k), k, WriteFailed), k);
        return true;
      }
      if fault.ClearDeadlineFault? {
        return true;
      }
      return false;
    }

    /** nextXid. */
    method NextXid() returns (id: nat)
      requires Valid()
      modifies this`xid
      ensures xid == Counter(st.draws + 1) && id == XidOf(st.draws + 1)
    {
      hide Inv, PendingRep, QueueRep, ChannelsRep;
      xid := (xid + 1) % WORD_SIZE;
      return xid % ID_COUNT;
    }

    /** queueRequest, up to the point where a full sendChan makes the caller wait. */
    method QueueRequest(opcode: int) returns (rq: Rq, sent: bool)
      requires Valid()
      modifies this
      ensures Valid() && rq.number == old(st).draws + 1 && Known(rq, st)
      ensures rq.opcode == opcode && (st.reqs[rq.number].isClose <==> opcode == -11)
      ensures sent <==> |old(sendChan)| < 16
      ensures var drawn := Apply(old(st), Draw(opcode == OP_CLOSE));
              if sent then Enabled(drawn, Enqueue(rq.number)) && st == Apply(drawn, Enqueue(rq.number)) else st == drawn
      ensures sendChan == if sent then old(sendChan) + [rq] else old(sendChan)
      ensures requests == old(requests) && closeChan == old(closeChan)
    {
      hide Inv, PendingRep, ChannelsRep, Counter, XidOf;
      ghost var s0, number := st, st.draws + 1;
      DrawRep(Now(), st, opcode == OP_CLOSE);
      StepInv(s0, Draw(opcode == OP_CLOSE));
      var id := NextXid();
      made := made + 1;
      rq := Rq(made, id, opcode);
      st := Apply(s0, Draw(opcode == OP_CLOSE));
      channels := channels[rq.number := Channel([], false)];
      sent := |sendChan| < SEND_CHAN_SIZE;
      if sent {
        EnqueueRep(Now(), st, rq);
        StepInv(st, Enqueue(rq.number));
        sendChan := sendChan + [rq];
        st := Apply(st, Enqueue(rq.number));
      }
    }

    /** recvLoop with a reply in hand: it waits while the request's channel is full. */
    method Deliver(rq: Rq) returns (blocked: bool)
      requires Valid() && st.phase.Up? && st.receiver == Handing(rq.number) && Known(rq, st)
      modifies this
      ensures Valid() && requests == old(requests) && sendChan == old(sendChan)
      ensures blocked <==> !Enabled(old(st), RequestEngine.Deliver)
      ensures !Enabled(old(st), RequestEngine.Deliver) ==> st == old(st) && !Room(st, rq.number)
      ensures Enabled(old(st), RequestEngine.Deliver) ==> st == Apply(old(st), RequestEngine.Deliver)
    {
      hide Inv, PendingRep, QueueRep, ChannelsRep, Counter, XidOf, Answer, Sent, HasRoom, Room;
      RoomRep(channels, st, rq.number);
      if !HasRoom(channels[rq.number]) {
        return true;
      }
      DeliverRep(Now(), st);
      StepInv(st, RequestEngine.Deliver);
      channels := Sent(channels, rq.number, Reply(conn));
      st := Apply(st, RequestEngine.Deliver);
      return false;
    }

    /** The part of recvLoop that handles a reply: look up, forget, answer. */
    method HandleReply(id: nat) returns (blocked: bool, eof: bool)
      requires Valid() && st.phase.Up? && st.receiver.Reading?
      modifies this
      ensures Valid() && requests == old(requests) - {id} && sendChan == old(sendChan)
      ensures id !in old(requests) ==> st == old(st) && !blocked && !eof
      ensures id in old(requests) ==>
                && Enabled(old(st), Receive(id))
                && var held := Apply(old(st), Receive(id));
                   (if blocked then st == held && !Room(held, old(requests)[id].number)
                    else Enabled(held, RequestEngine.Deliver) && st == Apply(held, RequestEngine.Deliver))
      ensures eof <==> !blocked && id in old(requests) && old(requests)[id].opcode == -11
    {
      hide Inv, PendingRep, QueueRep, ChannelsRep, Counter, XidOf, Answer;
      if id !in requests {
        assert requests - {id} == requests;
        return false, false;
      }
      var rq := requests[id];
      ReceiveRep(Now(), st, id);
      StepInv(st, Receive(id));
      requests := requests - {id};
      st := Apply(st, Receive(id));
      blocked := this.Deliver(rq);
      eof := !blocked && rq.opcode == OP_CLOSE;
    }

    /** flushRequests: blocks on the first full channel, holding the lock. */
    method FlushRequests(error: Error) returns (blockedOn: Option<nat>)
      requires Valid() && st.phase == Flushing(error)
      modifies this
      ensures blockedOn.None? <==> forall x :: x in old(st.pending) ==> Room(old(st), old(st.pending)[x])
      ensures blockedOn.None? ==> Valid() && requests == map[] && st == FlushedState(old(st), error)
      ensures blockedOn.Some? ==>
                requests == old(requests) && AtPending(old(st), blockedOn.value) && !Room(old(st), blockedOn.value)
    {
      hide Inv, Rep, PartlyFlushed, FlushedState, Sent, HasRoom, Room, Enabled, Apply, AtPending;
      FlushBegins(Now(), st, error);
      ghost var s0, rest := st, requests;
      var todo := requests.Keys;
      while todo != {}
        invariant rest.Keys == todo <= requests.Keys
        invariant requests == old(requests) && made == old(made) && conn == old(conn)
        invariant forall x :: x in rest ==> rest[x] == requests[x]
        invariant Rep(Now().(requests := rest), st)
        invariant st == PartlyFlushed(s0, todo, error) && Inv(st)
        invariant forall x :: x in s0.pending && x !in todo ==> Room(s0, s0.pending[x])
      {
        var x :| x in todo;
        var rq := requests[x];
        FlushTurn(Now().(requests := rest), s0, st, error, x);
        if !HasRoom(channels[rq.number]) {
          return Some(rq.number);
        }
        channels := Sent(channels, rq.number, Flushed(error));
        st := Apply(st, FlushOne(x));
        todo := todo - {x};
        rest := rest - {x};
      }
      FlushEnds(s0, error);
      assert rest == map[];
      requests := map[];
      return None;
    }

    /** flushUnsentRequests: never blocks, and leaves sendChan empty. */
    method FlushUnsentRequests(error: Error)
      requires Valid() && st.phase.Connecting?
      requires error == ErrNoServer || (error == ErrClosing && st.quit)
      modifies this
      ensures Valid() && sendChan == [] && st == UnsentState(old(st), error)
      ensures requests == old(requests)
    {
      hide Inv, PendingRep, QueueRep, ChannelsRep, Counter, XidOf, Answer, Sent, UnsentState;
      while sendChan != []
        invariant Valid() && st.phase.Connecting? && st.quit == old(st.quit) && requests == old(requests)
        invariant UnsentState(st, error) == UnsentState(old(st), error)
        decreases |sendChan|
      {
        HeadRep(Now(), st);
        EarlyAnswersHaveRoom(st);
        UnsentStep(st, error);
        DequeueRep(Now(), st, error);
        StepInv(st, FlushUnsent(error));
        channels := Sent(channels, sendChan[0].number, Unsent(error));
        sendChan := sendChan[1..];
        st := Apply(st, FlushUnsent(error));
      }
      EmptyRep(sendChan, st);
      UnsentEnds(st, error);
    }
  }
}
