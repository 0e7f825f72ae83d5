/** What every step of the request multiplexer keeps. */
module RequestInvariant {
  import opened Text
  import opened Errors
  import opened Xid
  import opened RequestEngine

  // ----- one request

  /** An answer that takes the request out of circulation: any but a failed write. */
  predicate Settled(answers: seq<Outcome>)
  {
    answers != [] && answers != [WriteFailed]
  }

  /** At most one failed write and at most one other answer. */
  predicate WellAnswered(answers: seq<Outcome>)
  {
    |answers| <= 2 && (|answers| == 2 ==> (answers[0].WriteFailed? <==> !answers[1].WriteFailed?))
  }

  /** Failed writes and replies need a place in the pending map, and a reply
      comes from the connection that place was on. */
  predicate Explained(answers: seq<Outcome>, on: Option<nat>)
  {
    forall i :: 0 <= i < |answers| ==>
      (answers[i].WriteFailed? ==> on.Some?) && (answers[i].Reply? ==> on == Some(answers[i].conn))
  }

  /** The queue, the hands and the map that may hold a request. */
  datatype Where = Where(queued: bool, holding: bool, writing: bool, pending: bool, handing: bool, displaced: bool)

  function One(b: bool): nat
  {
    if b then 1 else 0
  }

  /** The number of places a request is in. */
  function Places(r: Request, w: Where): nat
  {
    One(r.calling) + One(w.queued) + One(w.holding) + One(w.pending) + One(w.handing) +
    One(w.displaced) + One(Settled(r.answers))
  }

  predicate Sound(r: Request, w: Where, conn: nat)
  {
    && Places(r, w) == 1
    && WellAnswered(r.answers)
    && Explained(r.answers, r.on)
    && (r.calling || w.queued || w.holding ==> r.answers == [] && r.on.None?)
    && (w.pending || w.handing || w.writing ==> r.on == Some(conn))
    && (w.writing ==> WriteFailed !in r.answers)
    && (w.displaced ==> r.on.Some?)
    && (r.on.Some? ==> r.on.value <= conn)
    && (r.taken ==> r.answers != [] && !r.listening)
    // somebody will read the channel, unless it is a close or a resent request
    && (r.listening || r.taken || r.isClose || r.resent)
  }

  lemma {:induction false} EarlyMoves(r: Request, w: Where, conn: nat)
    requires Sound(r, w, conn)
    ensures r.calling ==> Sound(r.(calling := false), w.(queued := true), conn)
    ensures w.queued ==> Sound(r, w.(queued := false, holding := true), conn)
    ensures w.holding ==> !w.pending
    ensures w.holding ==> Sound(r.(on := Some(conn)), w.(holding := false, writing := true, pending := true), conn)
  {
  }

  lemma {:induction false} LateMoves(r: Request, w: Where, conn: nat)
    requires Sound(r, w, conn)
    ensures Sound(r, w.(writing := false), conn)
    ensures w.pending ==> Sound(r, w.(pending := false, displaced := true), conn)
    ensures w.pending ==> Sound(r, w.(pending := false, handing := true), conn)
  {
  }

  lemma {:induction false} EarlyAnswer(r: Request, w: Where, o: Outcome, conn: nat)
    requires Sound(r, w, conn) && !o.WriteFailed? && !o.Reply?
    ensures w.queued ==> Sound(Answered(r, o), w.(queued := false), conn)
    ensures w.holding ==> Sound(Answered(r, o), w.(holding := false), conn)
  {
    if w.queued || w.holding {
      assert r.answers + [o] == [o];
    }
  }

  lemma {:induction false} LateAnswer(r: Request, w: Where, o: Outcome, conn: nat)
    requires Sound(r, w, conn) && !o.WriteFailed? && (o.Reply? ==> o.conn == conn)
    ensures w.pending ==> Sound(Answered(r, o), w.(pending := false), conn)
    ensures w.handing ==> Sound(Answered(r, o), w.(handing := false), conn)
  {
    if w.pending || w.handing {
      assert r.answers == [] || r.answers == [WriteFailed];
      assert r.answers + [o] == [o] || r.answers + [o] == [WriteFailed, o];
    }
  }

  lemma {:induction false} FailedWrite(r: Request, w: Where, conn: nat)
    requires Sound(r, w, conn) && w.writing
    ensures Sound(Answered(r, WriteFailed), w.(writing := false), conn)
  {
    if r.answers == [] {
      assert r.answers + [WriteFailed] == [WriteFailed];
    } else {
      assert |r.answers| == 1 && !r.answers[0].WriteFailed?;
    }
  }

  lemma {:induction false} ChannelMoves(r: Request, w: Where, conn: nat)
    requires Sound(r, w, conn)
    ensures r.answers != [] ==> Sound(TookAnswer(r), w, conn)
    ensures !r.taken ==> Sound(r.(listening := true), w, conn)
    ensures r.isClose || r.resent ==> Sound(r.(listening := false), w, conn)
  {
  }

  lemma {:induction false} NextConn(r: Request, w: Where, conn: nat)
    requires Sound(r, w, conn) && !w.pending && !w.handing && !w.writing
    ensures Sound(r, w, conn + 1)
  {
  }

  lemma {:induction false} FreshSound(r: Request, w: Where, conn: nat)
    requires r.answers == [] && r.on == None && !r.taken && (r.listening || r.resent)
    requires r.calling != w.holding && !(w.queued || w.writing || w.pending || w.handing || w.displaced)
    ensures Sound(r, w, conn)
  {
  }

  // ----- all requests

  predicate AtPending(s: State, k: nat)
  {
    XidOf(k) in s.pending && s.pending[XidOf(k)] == k
  }

  function WhereIs(s: State, k: nat): Where
  {
    Where(k in s.queue, s.sender == Holding(k), s.sender == Writing(k) || s.sender == Failing(k),
          AtPending(s, k), s.receiver == Handing(k), k in s.displaced)
  }

  ghost predicate AllSound(s: State)
  {
    forall k :: k in s.reqs ==> Sound(s.reqs[k], WhereIs(s, k), s.conn)
  }

  /** Another request was drawn with the same id. */
  ghost predicate HasTwin(draws: nat, k: nat)
  {
    exists j: nat :: 1 <= j <= draws && j != k && XidOf(j) == XidOf(k)
  }

  predicate NoRepeats(q: seq<nat>)
  {
    forall i, j :: 0 <= i < j < |q| ==> q[i] != q[j]
  }

  predicate HandsKnown(s: State)
  {
    && (s.sender.Holding? || s.sender.Writing? || s.sender.Failing? || s.sender.Waiting? ==> s.sender.k in s.reqs)
    && (s.receiver.Handing? ==> s.receiver.k in s.reqs)
  }

  /** Every number and id in use belongs to a request that was drawn. */
  ghost predicate Keyed(s: State)
  {
    && (forall k :: k in s.reqs <==> 1 <= k <= s.draws)
    && (forall k :: k in s.queue ==> k in s.reqs)
    && NoRepeats(s.queue)
    && (forall x :: x in s.pending ==> x == XidOf(s.pending[x]) && s.pending[x] in s.reqs)
    && (forall k :: k in s.displaced ==> k in s.reqs && HasTwin(s.draws, k))
    && HandsKnown(s)
  }

  /** Hands are only full while a connection is up, and nothing is pending
      when a connection begins. */
  predicate Phased(s: State)
  {
    && (!s.phase.Up? ==> s.sender.Stopped? && s.receiver.Done?)
    && (s.phase.Connecting? || s.phase.Quit? ==> s.pending == map[])
    && (s.phase.Up? ==> (s.receiver.Done? <==> s.closed))
    && (s.reauth ==> s.phase.Up? && !s.sender.Stopped?)
    && (s.sender.Waiting? ==>
          s.reauth && s.sender.k in s.reqs && s.reqs[s.sender.k].resent && WriteFailed !in s.reqs[s.sender.k].answers)
    && ((s.sender.Holding? || s.sender.Writing? || s.sender.Failing?) && s.reauth ==>
          s.sender.k in s.reqs && s.reqs[s.sender.k].resent && !s.reqs[s.sender.k].taken &&
          !s.reqs[s.sender.k].listening)
  }

  ghost predicate Inv(s: State)
  {
    Phased(s) && Keyed(s) && AllSound(s)
  }

  lemma {:induction false} InitInv(s: State)
    requires Init(s)
    ensures Inv(s)
  {
  }

  /** Only request m changed or moved, and it is sound. */
  lemma {:induction false} Frame(s: State, s': State, m: nat)
    requires AllSound(s) && s'.conn == s.conn
    requires m in s'.reqs && Sound(s'.reqs[m], WhereIs(s', m), s'.conn)
    requires forall k :: k in s'.reqs && k != m ==> k in s.reqs && s'.reqs[k] == s.reqs[k] && WhereIs(s', k) == WhereIs(s, k)
    ensures AllSound(s')
  {
    hide WhereIs, Sound;
  }

  /** No request changed or moved. */
  lemma {:induction false} FrameAll(s: State, s': State)
    requires AllSound(s) && s'.conn == s.conn && s'.reqs == s.reqs
    requires forall k :: k in s.reqs ==> WhereIs(s', k) == WhereIs(s, k)
    ensures AllSound(s')
  {
    hide WhereIs, Sound;
  }

  lemma {:induction false} PendingKnown(s: State, x: nat)
    requires Keyed(s) && x in s.pending
    ensures s.pending[x] in s.reqs && XidOf(s.pending[x]) == x && AtPending(s, s.pending[x])
    ensures forall k :: k != s.pending[x] && AtPending(s, k) ==> XidOf(k) != x
  {
  }

  /** Taking the head of the queue removes just that request. */
  lemma {:induction false} QueueKnown(s: State)
    requires Keyed(s) && s.queue != []
    ensures s.queue[0] in s.reqs
    ensures forall k :: k in s.queue[1..] <==> k in s.queue && k != s.queue[0]
  {
  }

  lemma {:induction false} NextUnknown(s: State)
    requires Keyed(s)
    ensures var k := s.draws + 1;
            k !in s.reqs && WhereIs(s, k) == Where(false, false, false, false, false, false)
  {
  }

  lemma {:induction false} SenderKnown(s: State)
    requires Phased(s) && Keyed(s)
    ensures s.sender.Holding? || s.sender.Writing? || s.sender.Failing? || s.sender.Waiting? ==> s.sender.k in s.reqs
    ensures s.sender.Waiting? ==> s.reqs[s.sender.k].resent
    ensures s.reauth && (s.sender.Holding? || s.sender.Writing? || s.sender.Failing?) ==> !s.reqs[s.sender.k].taken
  {
  }

  lemma {:induction false} ConnectingEmpty(s: State)
    requires Phased(s) && s.phase.Connecting?
    ensures s.pending == map[] && s.sender.Stopped? && s.receiver.Done?
  {
  }

  lemma {:induction false} LeaveHolding(s: State, m: nat)
    requires s.sender == Holding(m)
    ensures WhereIs(s, m).holding && InNoHand(WhereIs(s, m)) == WhereIs(s, m).(holding := false)
  {
    hide XidOf;
  }

  lemma {:induction false} LeaveWriting(s: State, m: nat)
    requires s.sender == Writing(m) || s.sender == Failing(m)
    ensures WhereIs(s, m).writing && InNoHand(WhereIs(s, m)) == WhereIs(s, m).(writing := false)
  {
    hide XidOf;
  }

  function InNoHand(w: Where): Where
  {
    w.(holding := false, writing := false)
  }

  /** The sender lets go of request m, whose record may change. */
  lemma {:induction false} LeaveHand(s: State, m: nat, r: Request, sender: Sender)
    requires AllSound(s) && m in s.reqs
    requires s.sender == Holding(m) || s.sender == Writing(m) || s.sender == Failing(m)
    requires sender.Idle? || sender.Stopped? || sender.Waiting?
    requires Sound(r, InNoHand(WhereIs(s, m)), s.conn)
    ensures AllSound(SetRequest(s, m, r).(sender := sender))
  {
    hide Sound, XidOf;
    var s' := SetRequest(s, m, r).(sender := sender);
    assert WhereIs(s', m) == InNoHand(WhereIs(s, m));
    Frame(s, s', m);
  }

  lemma {:induction false} InsertedSound(s: State, k: nat)
    requires Keyed(s) && AllSound(s) && k in s.reqs && s.sender == Holding(k)
    ensures AllSound(Inserted(s, k))
  {
    hide Sound, Keyed, Counter;
    var x := XidOf(k);
    if x in s.pending {
      PendingKnown(s, x);
      EarlyMoves(s.reqs[k], WhereIs(s, k), s.conn);
      var d := s.pending[x];
      LateMoves(s.reqs[d], WhereIs(s, d), s.conn);
      var mid := s.(pending := s.pending - {x}, displaced := s.displaced + {d});
      assert WhereIs(mid, d) == WhereIs(s, d).(pending := false, displaced := true);
      Frame(s, mid, d);
      PlacedSound(mid, k);
      assert (s.pending - {x})[x := k] == s.pending[x := k];
    } else {
      PlacedSound(s, k);
    }
  }

  lemma {:induction false} PlacedSound(s: State, k: nat)
    requires AllSound(s) && k in s.reqs && s.sender == Holding(k) && XidOf(k) !in s.pending
    ensures AllSound(Inserted(s, k))
  {
    hide Sound, Counter;
    EarlyMoves(s.reqs[k], WhereIs(s, k), s.conn);
    var s' := Inserted(s, k);
    assert WhereIs(s', k) == WhereIs(s, k).(holding := false, writing := true, pending := true);
    Frame(s, s', k);
  }

  lemma {:induction false} DrawSound(s: State, isClose: bool)
    requires Inv(s) && Enabled(s, Draw(isClose))
    ensures AllSound(Apply(s, Draw(isClose)))
  {
    hide Sound, Keyed, Phased, Counter;
    var s' := Apply(s, Draw(isClose));
    NextUnknown(s);
    FreshSound(s'.reqs[s.draws + 1], WhereIs(s', s.draws + 1), s.conn);
    Frame(s, s', s.draws + 1);
  }

  lemma {:induction false} ResendSound(s: State)
    requires Inv(s) && Enabled(s, Resend)
    ensures AllSound(Apply(s, Resend))
  {
    hide Sound, Keyed, Phased, Counter;
    var s' := Apply(s, Resend);
    NextUnknown(s);
    FreshSound(s'.reqs[s.draws + 1], WhereIs(s', s.draws + 1), s.conn);
    Frame(s, s', s.draws + 1);
  }

  lemma {:induction false} EnqueueSound(s: State, k: nat)
    requires Inv(s) && Enabled(s, Enqueue(k))
    ensures AllSound(Apply(s, Enqueue(k)))
  {
    hide Sound, Keyed, Phased, Counter;
    var s' := Apply(s, Enqueue(k));
    var m := k;
    var r, w := s.reqs[m], WhereIs(s, m);
    EarlyMoves(r, w, s.conn);
    assert WhereIs(s', m) == w.(queued := true);
    Frame(s, s', m);
  }

  lemma {:induction false} TakeAnswerSound(s: State, k: nat)
    requires Inv(s) && Enabled(s, TakeAnswer(k))
    ensures AllSound(Apply(s, TakeAnswer(k)))
  {
    hide Sound, Keyed, Phased, Counter;
    var s' := Apply(s, TakeAnswer(k));
    var m := k;
    var r, w := s.reqs[m], WhereIs(s, m);
    ChannelMoves(r, w, s.conn);
    assert WhereIs(s', m) == w;
    Frame(s, s', m);
  }

  lemma {:induction false} GiveUpSound(s: State, k: nat)
    requires Inv(s) && Enabled(s, GiveUp(k))
    ensures AllSound(Apply(s, GiveUp(k)))
  {
    hide Sound, Keyed, Phased, Counter;
    var s' := Apply(s, GiveUp(k));
    var m := k;
    var r, w := s.reqs[m], WhereIs(s, m);
    ChannelMoves(r, w, s.conn);
    assert WhereIs(s', m) == w;
    Frame(s, s', m);
  }

  lemma {:induction false} CloseConnSound(s: State)
    requires Inv(s) && Enabled(s, CloseConn)
    ensures AllSound(Apply(s, CloseConn))
  {
    hide Sound, Keyed, Phased, Counter;
    var s' := Apply(s, CloseConn);
    FrameAll(s, s');
  }

  lemma {:induction false} StopSenderSound(s: State)
    requires Inv(s) && Enabled(s, StopSender)
    ensures AllSound(Apply(s, StopSender))
  {
    hide Sound, Keyed, Phased, Counter;
    var s' := Apply(s, StopSender);
    FrameAll(s, s');
  }

  lemma {:induction false} StopReceiverSound(s: State)
    requires Inv(s) && Enabled(s, StopReceiver)
    ensures AllSound(Apply(s, StopReceiver))
  {
    hide Sound, Keyed, Phased, Counter;
    var s' := Apply(s, StopReceiver);
    FrameAll(s, s');
  }

  lemma {:induction false} AuthFailsSound(s: State, expired: bool)
    requires Inv(s) && Enabled(s, AuthFails(expired))
    ensures AllSound(Apply(s, AuthFails(expired)))
  {
    hide Sound, Keyed, Phased, Counter;
    var s' := Apply(s, AuthFails(expired));
    FrameAll(s, s');
  }

  lemma {:induction false} DisconnectSound(s: State)
    requires Inv(s) && Enabled(s, Disconnect)
    ensures AllSound(Apply(s, Disconnect))
  {
    hide Sound, Keyed, Phased, Counter;
    var s' := Apply(s, Disconnect);
    FrameAll(s, s');
  }

  lemma {:induction false} FlushDoneSound(s: State)
    requires Inv(s) && Enabled(s, FlushDone)
    ensures AllSound(Apply(s, FlushDone))
  {
    hide Sound, Keyed, Phased, Counter;
    var s' := Apply(s, FlushDone);
    FrameAll(s, s');
  }

  lemma {:induction false} QuitConnectingSound(s: State)
    requires Inv(s) && Enabled(s, QuitConnecting)
    ensures AllSound(Apply(s, QuitConnecting))
  {
    hide Sound, Keyed, Phased, Counter;
    var s' := Apply(s, QuitConnecting);
    FrameAll(s, s');
  }

  lemma {:induction false} DequeueSound(s: State)
    requires Inv(s) && Enabled(s, Dequeue)
    ensures AllSound(Apply(s, Dequeue))
  {
    hide Sound, Keyed, Phased, Counter;
    var s' := Apply(s, Dequeue);
    QueueKnown(s);
    var m := s.queue[0];
    var r, w := s.reqs[m], WhereIs(s, m);
    EarlyMoves(r, w, s.conn);
    assert WhereIs(s', m) == w.(queued := false, holding := true);
    Frame(s, s', m);
  }

  lemma {:induction false} EncodeFailsSound(s: State)
    requires Inv(s) && Enabled(s, EncodeFails)
    ensures AllSound(Apply(s, EncodeFails))
  {
    hide Sound, Keyed, Phased, Counter, WhereIs, XidOf;
    SenderKnown(s);
    var m := s.sender.k;
    var r, w := s.reqs[m], WhereIs(s, m);
    LeaveHolding(s, m);
    EarlyAnswer(r, w, EncodeFailed, s.conn);
    ChannelMoves(Answered(r, EncodeFailed), w.(holding := false), s.conn);
    var r' := if s.reauth then Answered(r, EncodeFailed).(listening := true) else Answered(r, EncodeFailed);
    LeaveHand(s, m, r', if s.reauth then Waiting(m) else Idle);
    assert s.reqs[m := Answered(r, EncodeFailed)][m := r'] == s.reqs[m := r'];
  }

  lemma {:induction false} RefuseSound(s: State)
    requires Inv(s) && Enabled(s, Refuse)
    ensures AllSound(Apply(s, Refuse))
  {
    hide Sound, Keyed, Phased, Counter, WhereIs, XidOf;
    SenderKnown(s);
    var m := s.sender.k;
    var r, w := s.reqs[m], WhereIs(s, m);
    EarlyAnswer(r, w, Refused, s.conn);
    LeaveHolding(s, m);
    LeaveHand(s, m, Answered(r, Refused), if s.reauth then Idle else Stopped);
  }

  lemma {:induction false} InsertSound(s: State)
    requires Inv(s) && Enabled(s, Insert)
    ensures AllSound(Apply(s, Insert))
  {
    hide Sound, Keyed, Phased, Counter;
    var s' := Apply(s, Insert);
    InsertedSound(s, s.sender.k);
  }

  lemma {:induction false} DeadlineFailsSound(s: State)
    requires Inv(s) && Enabled(s, DeadlineFails)
    ensures AllSound(Apply(s, DeadlineFails))
  {
    hide Sound, Keyed, Phased, Counter, WhereIs, XidOf;
    SenderKnown(s);
    var m := s.sender.k;
    var r, w := s.reqs[m], WhereIs(s, m);
    LateMoves(r, w, s.conn);
    LeaveWriting(s, m);
    assert s.reqs[m := r] == s.reqs;
    LeaveHand(s, m, r, if s.reauth then Idle else Stopped);
  }

  lemma {:induction false} WriteFailsSound(s: State)
    requires Inv(s) && Enabled(s, WriteFails)
    ensures AllSound(Apply(s, WriteFails))
  {
    hide Sound, Keyed, Phased, Counter;
    FrameAll(s, Apply(s, WriteFails));
  }

  lemma {:induction false} ReportFailureSound(s: State)
    requires Inv(s) && Enabled(s, ReportFailure)
    ensures AllSound(Apply(s, ReportFailure))
  {
    hide Sound, Keyed, Phased, Counter, WhereIs, XidOf;
    SenderKnown(s);
    var m := s.sender.k;
    var r, w := s.reqs[m], WhereIs(s, m);
    LeaveWriting(s, m);
    FailedWrite(r, w, s.conn);
    LeaveHand(s, m, Answered(r, WriteFailed), if s.reauth then Idle else Stopped);
  }

  lemma {:induction false} WriteSucceedsSound(s: State)
    requires Inv(s) && Enabled(s, WriteSucceeds)
    ensures AllSound(Apply(s, WriteSucceeds))
  {
    hide Sound, Keyed, Phased, Counter, WhereIs, XidOf;
    SenderKnown(s);
    var m := s.sender.k;
    var r, w := s.reqs[m], WhereIs(s, m);
    LateMoves(r, w, s.conn);
    ChannelMoves(r, w.(writing := false), s.conn);
    LeaveWriting(s, m);
    assert s.reqs[m := r] == s.reqs;
    LeaveHand(s, m, if s.reauth then r.(listening := true) else r, if s.reauth then Waiting(m) else Idle);
  }

  lemma {:induction false} ResendAnsweredSound(s: State)
    requires Inv(s) && Enabled(s, ResendAnswered)
    ensures AllSound(Apply(s, ResendAnswered))
  {
    hide Sound, Keyed, Phased, Counter;
    var s' := Apply(s, ResendAnswered);
    var m := s.sender.k;
    var r, w := s.reqs[m], WhereIs(s, m);
    ChannelMoves(r, w, s.conn);
    assert WhereIs(s', m) == w;
    Frame(s, s', m);
  }

  lemma {:induction false} EndReauthSound(s: State)
    requires Inv(s) && Enabled(s, EndReauth)
    ensures AllSound(Apply(s, EndReauth))
  {
    hide Sound, Keyed, Phased, Counter;
    var s' := Apply(s, EndReauth);
    SenderKnown(s);
    if s.sender.Waiting? {
      ChannelMoves(s.reqs[s.sender.k], WhereIs(s, s.sender.k), s.conn);
      assert WhereIs(s', s.sender.k) == WhereIs(s, s.sender.k);
      Frame(s, s', s.sender.k);
    } else {
      FrameAll(s, s');
    }
  }

  lemma {:induction false} ReceiveSound(s: State, xid: nat)
    requires Inv(s) && Enabled(s, Receive(xid))
    ensures AllSound(Apply(s, Receive(xid)))
  {
    hide Sound, Keyed, Phased, Counter;
    var s' := Apply(s, Receive(xid));
    if xid in s.pending {
      PendingKnown(s, xid);
      var m := s.pending[xid];
      LateMoves(s.reqs[m], WhereIs(s, m), s.conn);
      assert WhereIs(s', m) == WhereIs(s, m).(pending := false, handing := true);
      Frame(s, s', m);
    }
  }

  lemma {:induction false} DeliverSound(s: State)
    requires Inv(s) && Enabled(s, Deliver)
    ensures AllSound(Apply(s, Deliver))
  {
    hide Sound, Keyed, Phased, Counter, XidOf, WhereIs;
    var m := s.receiver.k;
    LeaveHanding(s, m);
    LateAnswer(s.reqs[m], WhereIs(s, m), Reply(s.conn), s.conn);
    LeaveReceiver(s, m, Answered(s.reqs[m], Reply(s.conn)), if s.reqs[m].isClose then Ended else Reading);
  }

  lemma {:induction false} LeaveHanding(s: State, m: nat)
    requires s.receiver == Handing(m)
    ensures WhereIs(s, m).handing
  {
    hide XidOf;
  }

  /** The receiver lets go of request m, whose record may change. */
  lemma {:induction false} LeaveReceiver(s: State, m: nat, r: Request, receiver: Receiver)
    requires AllSound(s) && m in s.reqs && s.receiver == Handing(m) && !receiver.Handing?
    requires Sound(r, WhereIs(s, m).(handing := false), s.conn)
    ensures AllSound(SetRequest(s, m, r).(receiver := receiver))
  {
    hide Sound, XidOf;
    var s' := SetRequest(s, m, r).(receiver := receiver);
    assert WhereIs(s', m) == WhereIs(s, m).(handing := false);
    Frame(s, s', m);
  }

  lemma {:induction false} AuthenticatedSound(s: State)
    requires Inv(s) && Enabled(s, Authenticated)
    ensures AllSound(Apply(s, Authenticated))
  {
    hide Sound, Keyed, Phased, Counter;
    var s' := Apply(s, Authenticated);
    ConnectingEmpty(s);
    forall k | k in s'.reqs ensures Sound(s'.reqs[k], WhereIs(s', k), s'.conn) {
      NextConn(s.reqs[k], WhereIs(s, k), s.conn);
      assert WhereIs(s', k) == WhereIs(s, k);
    }
  }

  lemma {:induction false} FlushOneSound(s: State, xid: nat)
    requires Inv(s) && Enabled(s, FlushOne(xid))
    ensures AllSound(Apply(s, FlushOne(xid)))
  {
    hide Sound, Keyed, Phased, Counter;
    var s' := Apply(s, FlushOne(xid));
    PendingKnown(s, xid);
    var m := s.pending[xid];
    var r, w := s.reqs[m], WhereIs(s, m);
    LateAnswer(r, w, Flushed(s.phase.error), s.conn);
    assert WhereIs(s', m) == w.(pending := false);
    Frame(s, s', m);
  }

  lemma {:induction false} FlushUnsentSound(s: State, error: Error)
    requires Inv(s) && Enabled(s, FlushUnsent(error))
    ensures AllSound(Apply(s, FlushUnsent(error)))
  {
    hide Sound, Keyed, Phased, Counter;
    var s' := Apply(s, FlushUnsent(error));
    QueueKnown(s);
    var m := s.queue[0];
    var r, w := s.reqs[m], WhereIs(s, m);
    EarlyAnswer(r, w, Unsent(error), s.conn);
    assert WhereIs(s', m) == w.(queued := false);
    Frame(s, s', m);
  }

  lemma {:induction false} LoopStep(step: Step)
    requires !ByCaller(step) && !BySender(step) && !ByReceiver(step)
    ensures ByLoop(step)
  {
  }

  lemma {:induction false} CallerPhased(s: State, step: Step)
    requires Phased(s) && Keyed(s) && Enabled(s, step) && ByCaller(step)
    ensures Phased(Apply(s, step))
  {
    hide XidOf, Keyed;
    NextUnknown(s);
  }

  lemma {:induction false} SenderPhased(s: State, step: Step)
    requires Phased(s) && Keyed(s) && CleanHand(s) && Enabled(s, step) && BySender(step)
    ensures Phased(Apply(s, step))
  {
    hide XidOf, Keyed;
    NextUnknown(s);
  }

  lemma {:induction false} ReceiverPhased(s: State, step: Step)
    requires Phased(s) && Enabled(s, step) && ByReceiver(step)
    ensures Phased(Apply(s, step))
  {
    hide XidOf, Keyed;
  }

  lemma {:induction false} LoopPhased(s: State, step: Step)
    requires Phased(s) && Enabled(s, step) && ByLoop(step)
    ensures Phased(Apply(s, step))
  {
    hide XidOf, Keyed;
  }

  /** No write of the request in the sender's hand has failed yet. */
  predicate CleanHand(s: State)
  {
    && (s.sender.Holding? ==> s.sender.k in s.reqs && s.reqs[s.sender.k].answers == [])
    && (s.sender.Writing? ==> s.sender.k in s.reqs && WriteFailed !in s.reqs[s.sender.k].answers)
  }

  lemma {:induction false} HandIsClean(s: State)
    requires Keyed(s) && AllSound(s)
    ensures CleanHand(s)
  {
    hide Explained, WellAnswered, XidOf, NoRepeats, HasTwin;
    if s.sender.Holding? || s.sender.Writing? {
      assert Sound(s.reqs[s.sender.k], WhereIs(s, s.sender.k), s.conn);
    }
  }

  lemma {:induction false} StepPhased(s: State, step: Step)
    requires Inv(s) && Enabled(s, step)
    ensures Phased(Apply(s, step))
  {
    hide Enabled, Apply, ByCaller, BySender, ByReceiver, Keyed, Phased, AllSound, CleanHand;
    HandIsClean(s);
    if ByCaller(step) {
      CallerPhased(s, step);
    } else if BySender(step) {
      SenderPhased(s, step);
    } else if ByReceiver(step) {
      ReceiverPhased(s, step);
    } else {
      LoopStep(step);
      LoopPhased(s, step);
    }
  }

  lemma {:induction false} StepKeyed(s: State, step: Step)
    requires Inv(s) && Enabled(s, step)
    ensures Keyed(Apply(s, step))
  {
    hide Sound, WhereIs, NoRepeats, HasTwin, Enabled, Apply, Phased, AllSound;
    QueueKept(s, step);
    TwinsKept(s, step);
    NumbersKept(s, step);
    HandsKept(s, step);
    PendingKept(s, step);
  }

  lemma {:induction false} KeysKept(s: State, step: Step)
    requires Enabled(s, step)
    ensures var s' := Apply(s, step);
      || (s'.draws == s.draws && s'.reqs.Keys == s.reqs.Keys)
      || (s'.draws == s.draws + 1 && s'.reqs.Keys == s.reqs.Keys + {s.draws + 1})
  {
    hide Enabled, Apply, BySender;
    if BySender(step) {
      SenderKeys(s, step);
    } else {
      OtherKeys(s, step);
    }
  }

  lemma {:induction false} SenderKeys(s: State, step: Step)
    requires Enabled(s, step) && BySender(step)
    ensures var s' := Apply(s, step);
      || (s'.draws == s.draws && s'.reqs.Keys == s.reqs.Keys)
      || (s'.draws == s.draws + 1 && s'.reqs.Keys == s.reqs.Keys + {s.draws + 1})
  {
    hide XidOf, SetRequest, Answer, SendOk, Inserted;
  }

  lemma {:induction false} OtherKeys(s: State, step: Step)
    requires Enabled(s, step) && !BySender(step)
    ensures var s' := Apply(s, step);
      || (s'.draws == s.draws && s'.reqs.Keys == s.reqs.Keys)
      || (s'.draws == s.draws + 1 && s'.reqs.Keys == s.reqs.Keys + {s.draws + 1})
  {
    hide XidOf, SetRequest, Answer, SendOk, Inserted;
  }

  lemma {:induction false} NumbersKept(s: State, step: Step)
    requires Keyed(s) && Enabled(s, step)
    ensures var s' := Apply(s, step);
      && s.reqs.Keys <= s'.reqs.Keys && s.draws <= s'.draws
      && forall k :: k in s'.reqs <==> 1 <= k <= s'.draws
  {
    hide Enabled, Apply, HasTwin, NoRepeats, XidOf;
    KeysKept(s, step);
    forall k ensures k in Apply(s, step).reqs <==> 1 <= k <= Apply(s, step).draws {
      assert k in Apply(s, step).reqs <==> k in Apply(s, step).reqs.Keys;
    }
  }

  lemma {:induction false} HandsKept(s: State, step: Step)
    requires Keyed(s) && Enabled(s, step)
    ensures HandsKnown(Apply(s, step))
  {
    hide Enabled, Apply, BySender, HandsKnown, NoRepeats, HasTwin;
    assert s.queue != [] ==> s.queue[0] in s.queue;
    if BySender(step) {
      SenderHands(s, step);
    } else {
      OtherHands(s, step);
    }
  }

  lemma {:induction false} SenderHands(s: State, step: Step)
    requires HandsKnown(s) && (s.queue != [] ==> s.queue[0] in s.reqs) && Enabled(s, step) && BySender(step)
    ensures HandsKnown(Apply(s, step))
  {
    hide XidOf, SetRequest, Answer, Inserted;
  }

  lemma {:induction false} OtherHands(s: State, step: Step)
    requires Keyed(s) && Enabled(s, step) && !BySender(step)
    ensures HandsKnown(Apply(s, step))
  {
    hide XidOf, HasTwin, NoRepeats, SetRequest, Answer, Inserted;
  }

  lemma {:induction false} OnlyInsertAddsPending(s: State, step: Step)
    requires Enabled(s, step) && !step.Insert?
    ensures var s' := Apply(s, step);
      forall x :: x in s'.pending ==> x in s.pending && s'.pending[x] == s.pending[x]
  {
    hide XidOf, SetRequest, Answer, SendOk, Inserted;
  }

  lemma {:induction false} PendingKept(s: State, step: Step)
    requires Keyed(s) && Enabled(s, step)
    ensures var s' := Apply(s, step);
      forall x :: x in s'.pending ==> x == XidOf(s'.pending[x]) && s'.pending[x] in s'.reqs
  {
    hide HasTwin, NoRepeats, XidOf, SetRequest;
    if step.Insert? {
      assert Apply(s, step) == Inserted(s, s.sender.k);
    } else {
      PendingStays(s, step);
    }
  }

  lemma {:induction false} PendingStays(s: State, step: Step)
    requires Keyed(s) && Enabled(s, step) && !step.Insert?
    ensures var s' := Apply(s, step);
      forall x :: x in s'.pending ==> x == XidOf(s'.pending[x]) && s'.pending[x] in s'.reqs
  {
    hide HasTwin, NoRepeats, XidOf, Apply, Enabled;
    OnlyInsertAddsPending(s, step);
    NumbersKept(s, step);
  }

  lemma {:induction false} QueueKept(s: State, step: Step)
    requires Inv(s) && Enabled(s, step)
    ensures var s' := Apply(s, step); NoRepeats(s'.queue) && forall k :: k in s'.queue ==> k in s'.reqs
  {
    hide Keyed, Phased, AllSound, XidOf, SetRequest, Answer, SendOk, Inserted, Enabled;
    QueueFacts(s);
    KeysKept(s, step);
    if !step.Enqueue? && !step.Dequeue? && !step.FlushUnsent? {
      QueueStays(s, step);
    } else {
      QueueMoves(s, step);
    }
  }

  lemma {:induction false} QueueStays(s: State, step: Step)
    requires Enabled(s, step) && !step.Enqueue? && !step.Dequeue? && !step.FlushUnsent?
    ensures Apply(s, step).queue == s.queue
  {
    hide XidOf, SetRequest, Answer, SendOk;
  }

  lemma {:induction false} QueueMoves(s: State, step: Step)
    requires Enabled(s, step) && (step.Enqueue? || step.Dequeue? || step.FlushUnsent?)
    requires NoRepeats(s.queue) && forall k :: k in s.queue ==> k in s.reqs && !s.reqs[k].calling
    ensures var s' := Apply(s, step); NoRepeats(s'.queue) && forall k :: k in s'.queue ==> k in s'.reqs
  {
    hide XidOf;
  }

  lemma {:induction false} QueueFacts(s: State)
    requires Inv(s)
    ensures NoRepeats(s.queue) && forall k :: k in s.queue ==> k in s.reqs && !s.reqs[k].calling
  {
    forall k | k in s.queue ensures k in s.reqs && !s.reqs[k].calling {
      assert Sound(s.reqs[k], WhereIs(s, k), s.conn);
    }
  }

  lemma {:induction false} OnlyInsertDisplaces(s: State, step: Step)
    requires Enabled(s, step) && !step.Insert?
    ensures Apply(s, step).displaced == s.displaced
  {
    hide XidOf, SetRequest, Answer, SendOk, Inserted;
  }

  lemma {:induction false} TwinsKept(s: State, step: Step)
    requires Inv(s) && Enabled(s, step)
    ensures var s' := Apply(s, step); forall k :: k in s'.displaced ==> k in s'.reqs && HasTwin(s'.draws, k)
  {
    hide Keyed, HasTwin;
    if step.Insert? {
      assert Apply(s, step) == Inserted(s, s.sender.k);
      HeldNotPending(s);
      InsertTwins(s, s.sender.k);
    } else {
      TwinsStay(s, step);
    }
  }

  lemma {:induction false} TwinsStay(s: State, step: Step)
    requires Keyed(s) && Enabled(s, step) && !step.Insert?
    ensures var s' := Apply(s, step); forall k :: k in s'.displaced ==> k in s'.reqs && HasTwin(s'.draws, k)
  {
    hide Enabled, Apply, NoRepeats, XidOf;
    OnlyInsertDisplaces(s, step);
    NumbersKept(s, step);
    forall k | k in s.displaced ensures HasTwin(Apply(s, step).draws, k) {
      assert HasTwin(s.draws, k);
    }
  }

  lemma {:induction false} HeldNotPending(s: State)
    requires Inv(s) && s.sender.Holding?
    ensures !AtPending(s, s.sender.k)
  {
    assert Sound(s.reqs[s.sender.k], WhereIs(s, s.sender.k), s.conn);
  }

  lemma {:induction false} InsertTwins(s: State, m: nat)
    requires Keyed(s) && m in s.reqs && (XidOf(m) in s.pending ==> s.pending[XidOf(m)] != m)
    ensures var s' := Inserted(s, m); forall k :: k in s'.displaced ==> k in s'.reqs && HasTwin(s'.draws, k)
  {
    hide NoRepeats, Counter;
    var s' := Inserted(s, m);
    forall k | k in s'.displaced ensures k in s'.reqs && HasTwin(s'.draws, k) {
      if k !in s.displaced {
        assert XidOf(m) == XidOf(k) && k != m;
      }
    }
  }

  lemma {:induction false} StepSound(s: State, step: Step)
    requires Inv(s) && Enabled(s, step)
    ensures AllSound(Apply(s, step))
  {
    hide Enabled, Apply, Inv, AllSound;
    match step
    case Draw(isClose) => DrawSound(s, isClose);
    case Resend => ResendSound(s);
    case Enqueue(k) => EnqueueSound(s, k);
    case TakeAnswer(k) => TakeAnswerSound(s, k);
    case GiveUp(k) => GiveUpSound(s, k);
    case CloseConn => CloseConnSound(s);
    case StopSender => StopSenderSound(s);
    case StopReceiver => StopReceiverSound(s);
    case AuthFails(expired) => AuthFailsSound(s, expired);
    case Disconnect => DisconnectSound(s);
    case FlushDone => FlushDoneSound(s);
    case QuitConnecting => QuitConnectingSound(s);
    case Dequeue => DequeueSound(s);
    case EncodeFails => EncodeFailsSound(s);
    case Refuse => RefuseSound(s);
    case Insert => InsertSound(s);
    case DeadlineFails => DeadlineFailsSound(s);
    case WriteFails => WriteFailsSound(s);
    case ReportFailure => ReportFailureSound(s);
    case WriteSucceeds => WriteSucceedsSound(s);
    case ResendAnswered => ResendAnsweredSound(s);
    case EndReauth => EndReauthSound(s);
    case Receive(xid) => ReceiveSound(s, xid);
    case Deliver => DeliverSound(s);
    case Authenticated => AuthenticatedSound(s);
    case FlushOne(xid) => FlushOneSound(s, xid);
    case FlushUnsent(error) => FlushUnsentSound(s, error);
  }

  lemma {:induction false} StepInv(s: State, step: Step)
    requires Inv(s) && Enabled(s, step)
    ensures Inv(Apply(s, step))
  {
    hide Enabled, Apply, Phased, Keyed, AllSound;
    StepPhased(s, step);
    StepKeyed(s, step);
    StepSound(s, step);
  }

  lemma {:induction false} RunInv(states: seq<State>, steps: seq<Step>, i: nat)
    requires IsRun(states, steps) && i < |states|
    ensures Inv(states[i])
  {
    hide Enabled, Apply, Inv;
    if i == 0 {
      InitInv(states[0]);
    } else {
      RunInv(states, steps, i - 1);
      StepInv(states[i - 1], steps[i - 1]);
    }
  }

  lemma {:induction false} TakesInv(s: State, steps: seq<Step>, s': State)
    requires Inv(s) && Takes(s, steps, s')
    ensures Inv(s')
    decreases |steps|
  {
    hide Inv, Enabled, Apply;
    if steps != [] {
      StepInv(s, steps[0]);
      TakesInv(Apply(s, steps[0]), steps[1..], s');
    }
  }
}
