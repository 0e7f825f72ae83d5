/** Multi (zk/conn.go:1211-1239) and the reply it decodes (zk/structs.go:343-389). */
module MultiReply {
  import opened Text
  import opened Bytes
  import opened Errors
  import opened Packets
  import Serializer
  import opened Decoder
  import opened CodecTheorems

  /** ErrCode.toError: nil exactly for code 0. */
  function ToError(code: int32): (e: Option<Error>)
    ensures e.None? <==> code == 0
  {
    if code == 0 then None
    else if code == -100 then Some(ErrAPIError)
    else if code == -101 then Some(ErrNoNode)
    else if code == -110 then Some(ErrNodeExists)
    else if code == -112 then Some(ErrSessionExpired)
    else if code == -116 then Some(ErrClosing)
    else Some(ErrOther(code))
  }

  /** The codes of the errors that the model names. */
  lemma {:induction false} ErrorCodes(code: int32)
    ensures ToError(code) == Some(ErrAPIError) <==> code == -100
    ensures ToError(code) == Some(ErrNoNode) <==> code == -101
    ensures ToError(code) == Some(ErrNodeExists) <==> code == -110
    ensures ToError(code) == Some(ErrSessionExpired) <==> code == -112
    ensures ToError(code) == Some(ErrClosing) <==> code == -116
  {
  }

  // ----- the request

  /** An argument of Multi, by its dynamic type. */
  datatype Argument = Create(v: Value) | SetData(v: Value) | Delete(v: Value) | Check(v: Value) | Unknown

  function OpCode(a: Argument): int32
    requires !a.Unknown?
  {
    match a
    case Create(_) => OP_CREATE
    case SetData(_) => OP_SET_DATA
    case Delete(_) => OP_DELETE
    case Check(_) => OP_CHECK
  }

  /** The argument is a struct of the type its constructor names. */
  predicate TypedArgument(a: Argument)
  {
    a.Unknown? || HasSchema(a.v, RequestSchema(OpCode(a)).value)
  }

  /** The request Multi sends: one operation per argument, in order, whose header
      announces its type, so that the round trip laws apply to it. */
  method BuildRequest(args: seq<Argument>) returns (r: Option<Value>)
    requires forall k :: 0 <= k < |args| ==> TypedArgument(args[k])
    ensures r.None? <==> exists k :: 0 <= k < |args| && args[k].Unknown?
    ensures r.Some? ==> r.value.VMulti? && |r.value.ops| == |args| && HasSchema(r.value, SMulti)
    ensures r.Some? ==> forall k :: 0 <= k < |args| ==>
              r.value.ops[k] == MultiOp(MultiHeader(OpCode(args[k]), false, -1), args[k].v)
    // the protocol's numbers
    ensures r.Some? ==> forall k :: 0 <= k < |args| ==>
              var opType := r.value.ops[k].header.opType;
              && (args[k].Create? <==> opType == 1)
              && (args[k].Delete? <==> opType == 2)
              && (args[k].SetData? <==> opType == 5)
              && (args[k].Check? <==> opType == 13)
    ensures r.Some? ==> r.value.done == MultiHeader(-1, true, -1)
  {
    var ops: seq<MultiOp> := [];
    var i := 0;
    while i < |args|
      invariant 0 <= i <= |args| && |ops| == i
      invariant forall k :: 0 <= k < i ==>
                  !args[k].Unknown? && ops[k] == MultiOp(MultiHeader(OpCode(args[k]), false, -1), args[k].v)
      invariant forall op :: op in ops ==> OpTyped(op)
    {
      if args[i].Unknown? {
        return None;
      }
      var op := MultiOp(MultiHeader(OpCode(args[i]), false, -1), args[i].v);
      assert OpTyped(op);
      ops := ops + [op];
      i := i + 1;
    }
    return Some(VMulti(ops, MultiHeader(-1, true, -1)));
  }

  // ----- the reply

  datatype OpResult = OpResult(header: MultiHeader, text: seq<byte>, stat: Option<Value>, err: int32)

  datatype End = Closed(done: MultiHeader, next: nat) | Broken(error: DecodeError)

  /** The body that follows a result header of each type. */
  function DecodeResult(h: MultiHeader, b: seq<byte>, len: nat, off: nat): (r: Decoded<OpResult>)
    requires len <= |b| && off <= |b|
    ensures r.Got? ==> off <= r.next <= |b|
  {
    if h.opType == OP_CHECK || h.opType == OP_DELETE then Got(OpResult(h, [], None, 0), off)
    else if h.opType == OP_ERROR then
      var r := Decode(SInt32, b, len, off);
      if r.Lost? then Lost(r.error) else Got(OpResult(h, [], None, r.value.i), r.next)
    else if h.opType == OP_CREATE then
      var r := Decode(SString, b, len, off);
      if r.Lost? then Lost(r.error) else Got(OpResult(h, r.value.text, None, 0), r.next)
    else if h.opType == OP_SET_DATA then
      var r := Decode(STAT, b, len, off);
      if r.Lost? then Lost(r.error) else Got(OpResult(h, [], Some(r.value), 0), r.next)
    else Lost(APIError)
  }

  /** The body by the number of its header: an error code, a path, a Stat, or nothing. */
  lemma {:induction false} BodyByType(h: MultiHeader, b: seq<byte>, len: nat, off: nat)
    requires len <= |b| && off <= |b|
    ensures h.opType == 2 || h.opType == 13 ==> DecodeResult(h, b, len, off) == Got(OpResult(h, [], None, 0), off)
    ensures h.opType == -1 ==>
              var r := DecodeResult(h, b, len, off);
              (r.Got? <==> off + 4 <= |b| && off <= len) &&
              (r.Got? ==> r == Got(OpResult(h, [], None, Int32At(b, off)), off + 4))
    ensures h.opType == 1 ==>
              var r := DecodeResult(h, b, len, off);
              r.Got? ==> Decode(SString, b, len, off) == Got(VString(r.value.text), r.next) && r.value.stat.None? && r.value.err == 0
    ensures h.opType == 5 ==>
              var r := DecodeResult(h, b, len, off);
              r.Got? ==> Decode(STAT, b, len, off) == Got(r.value.stat.value, r.next) && r.value.text == [] && r.value.err == 0
    ensures h.opType !in {-1, 1, 2, 5, 13} ==> DecodeResult(h, b, len, off) == Lost(APIError)
    ensures DecodeResult(h, b, len, off).Got? ==> DecodeResult(h, b, len, off).value.header == h
  {
  }

  /** The results up to the closing header, or up to where the reply breaks off. */
  function DecodeReply(b: seq<byte>, len: nat, off: nat): (seq<OpResult>, End)
    requires len <= |b|
    decreases Rest(b, off)
  {
    var h := DecodeHeader(b, len, off);
    if h.Lost? then ([], Broken(h.error))
    else if h.value.done then ([], Closed(h.value, h.next))
    else
      var r := DecodeResult(h.value, b, len, h.next);
      if r.Lost? then ([], Broken(r.error))
      else
        var (rest, end) := DecodeReply(b, len, r.next);
        ([r.value] + rest, end)
  }

  /** The error of the first result that has one. */
  function FirstError(ops: seq<OpResult>): Option<Error>
  {
    if ops == [] then None
    else if ToError(ops[0].err).Some? then ToError(ops[0].err)
    else FirstError(ops[1..])
  }

  lemma {:induction false} FirstErrorAppend(a: seq<OpResult>, b: seq<OpResult>)
    ensures FirstError(a + b) == if FirstError(a).Some? then FirstError(a) else FirstError(b)
  {
    if a == [] {
      assert a + b == b;
    } else {
      assert (a + b)[1..] == a[1..] + b;
      FirstErrorAppend(a[1..], b);
    }
  }

  /** FirstError, said of positions: nil exactly when no operation failed, and
      otherwise the error of the least position that did. */
  lemma {:induction false} FirstErrorMeans(ops: seq<OpResult>)
    ensures FirstError(ops).None? <==> forall k :: 0 <= k < |ops| ==> ToError(ops[k].err).None?
    ensures FirstError(ops).Some? ==>
              exists k :: 0 <= k < |ops| && FirstError(ops) == ToError(ops[k].err)
                          && forall j :: 0 <= j < k ==> ToError(ops[j].err).None?
  {
    if ops != [] {
      FirstErrorMeans(ops[1..]);
      var tail := ops[1..];
      if ToError(ops[0].err).None? && FirstError(tail).Some? {
        var k :| 0 <= k < |tail| && FirstError(tail) == ToError(tail[k].err)
                 && forall j :: 0 <= j < k ==> ToError(tail[j].err).None?;
        assert FirstError(ops) == ToError(ops[k + 1].err);
        assert forall j :: 0 <= j < k + 1 ==> (j > 0 ==> ops[j] == tail[j - 1]);
      }
      assert forall k :: 0 < k < |ops| ==> ops[k] == tail[k - 1];
    }
  }

  /** multiResponse.Decode as it runs; multiErr keeps the first error. */
  method DecodeMultiResponse(b: seq<byte>, len: nat) returns (ops: seq<OpResult>, end: End, multiErr: Option<Error>)
    requires len <= |b|
    ensures (ops, end) == DecodeReply(b, len, 0)
    ensures multiErr == FirstError(ops)
  {
    ops := [];
    multiErr := None;
    var total := 0;
    assert [] + DecodeReply(b, len, 0).0 == DecodeReply(b, len, 0).0;
    while true
      invariant DecodeReply(b, len, 0) == (ops + DecodeReply(b, len, total).0, DecodeReply(b, len, total).1)
      invariant multiErr == FirstError(ops)
      decreases Rest(b, total)
    {
      var header := DecodeHeader(b, len, total);
      if header.Lost? {
        assert ops + [] == ops;
        return ops, Broken(header.error), multiErr;
      }
      if header.value.done {
        assert ops + [] == ops;
        return ops, Closed(header.value, header.next), multiErr;
      }
      var r := DecodeResult(header.value, b, len, header.next);
      if r.Lost? {
        assert ops + [] == ops;
        return ops, Broken(r.error), multiErr;
      }
      Regroup(ops, r.value, DecodeReply(b, len, r.next).0);
      FirstErrorAppend(ops, [r.value]);
      ops := ops + [r.value];
      total := r.next;
      if multiErr.None? && r.value.err != 0 {
        multiErr := ToError(r.value.err);
      }
    }
  }

  lemma {:induction false} Regroup(ops: seq<OpResult>, op: OpResult, rest: seq<OpResult>)
    ensures ops + ([op] + rest) == ops + [op] + rest
  {
  }

  datatype MultiResult = MultiResult(stat: Option<Value>, text: seq<byte>, error: Option<Error>)

  /** The call returns, or the receive loop panics: recover re-raises an index out
      of range (zk/structs.go:406-414). */
  datatype MultiOutcome =
    | Returned(results: seq<MultiResult>, error: Option<Error>)
    | Panicked

  function Broke(e: DecodeError): Error
    requires !e.IndexPanic?
  {
    match e
    case APIError => ErrAPIError
    case UnhandledType => ErrUnhandledFieldType
    case ShortBuffer => ErrShortBuffer
  }

  /** What Multi returns for a reply: the results in the order of the reply, each
      with its own error, and an error that for a complete reply is the one of the
      first failed operation. */
  method Multi(replyErr: int32, b: seq<byte>, len: nat) returns (r: MultiOutcome)
    requires len <= |b|
    ensures replyErr != 0 ==> r == Returned([], ToError(replyErr))
    ensures replyErr == 0 ==>
              var (ops, end) := DecodeReply(b, len, 0);
              && (r.Panicked? <==> end == Broken(IndexPanic))
              && (r.Returned? ==>
                    && |r.results| == |ops|
                    && (forall k :: 0 <= k < |ops| ==> r.results[k] == MultiResult(ops[k].stat, ops[k].text, ToError(ops[k].err)))
                    && r.error == (if end.Closed? then FirstError(ops) else Some(Broke(end.error)))
                    && (end == Broken(ShortBuffer) ==> r.error == Some(ErrShortBuffer))
                    && (end == Broken(APIError) ==> r.error == Some(ErrAPIError)))
  {
    if replyErr != 0 {
      return Returned([], ToError(replyErr));
    }
    var ops, end, multiErr := DecodeMultiResponse(b, len);
    if end == Broken(IndexPanic) {
      return Panicked;
    }
    var results := [];
    var i := 0;
    while i < |ops|
      invariant 0 <= i <= |ops| && |results| == i
      invariant forall k :: 0 <= k < i ==> results[k] == MultiResult(ops[k].stat, ops[k].text, ToError(ops[k].err))
    {
      results := results + [MultiResult(ops[i].stat, ops[i].text, ToError(ops[i].err))];
      i := i + 1;
    }
    return Returned(results, if end.Closed? then multiErr else Some(Broke(end.error)));
  }

  // ----- exactly which replies panic

  /** Where the headers start that the reply loop looks at. */
  function HeaderStarts(b: seq<byte>, len: nat, off: nat): seq<nat>
    requires len <= |b|
    decreases Rest(b, off)
  {
    var h := DecodeHeader(b, len, off);
    if h.Lost? || h.value.done then [off]
    else
      var r := DecodeResult(h.value, b, len, h.next);
      if r.Lost? then [off] else [off] + HeaderStarts(b, len, r.next)
  }

  predicate Numeric(fields: seq<Schema>) { forall k :: 0 <= k < |fields| ==> fields[k].SInt32? || fields[k].SInt64? }

  lemma {:induction false} NumbersDoNotPanic(fields: seq<Schema>, b: seq<byte>, len: nat, off: nat)
    requires Numeric(fields) && len <= |b| && off <= |b|
    ensures DecodeFields(fields, b, len, off) != Lost(IndexPanic)
  {
    if fields != [] {
      var first := Decode(fields[0], b, len, off);
      assert fields[0].SInt32? || fields[0].SInt64?;
      if first.Got? {
        NumbersDoNotPanic(fields[1..], b, len, first.next);
      }
    }
  }

  /** Only a header holds a bool, so no result body panics. */
  lemma {:induction false} BodyDoesNotPanic(h: MultiHeader, b: seq<byte>, len: nat, off: nat)
    requires len <= |b| && off <= |b|
    ensures DecodeResult(h, b, len, off) != Lost(IndexPanic)
  {
    if h.opType == OP_SET_DATA {
      NumbersDoNotPanic(STAT.fields, b, len, off);
    }
  }

  /** The decode of a reply panics if and only if the reply ends right before the
      bool of one of the headers in it. */
  lemma {:induction false} PanicsExactly(b: seq<byte>, len: nat, off: nat)
    requires len <= |b|
    ensures DecodeReply(b, len, off).1 == Broken(IndexPanic) <==> len >= 4 && len - 4 in HeaderStarts(b, len, off)
    decreases Rest(b, off)
  {
    hide DecodeResult, DecodeHeader;
    var h := DecodeHeader(b, len, off);
    HeaderPanics(b, len, off);
    if h.Got? && !h.value.done {
      BodyDoesNotPanic(h.value, b, len, h.next);
      var r := DecodeResult(h.value, b, len, h.next);
      if r.Got? {
        PanicsExactly(b, len, r.next);
        assert HeaderStarts(b, len, off) == [off] + HeaderStarts(b, len, r.next);
      }
    }
  }

  lemma {:induction false} HeaderPanics(b: seq<byte>, len: nat, off: nat)
    requires len <= |b|
    ensures DecodeHeader(b, len, off) == Lost(IndexPanic) <==> off + 4 == len
  {
  }

  // ----- the server's side

  predicate PlainStat(v: Value) { HasSchema(v, STAT) && SizesFit(v) && Normalize(v) == v }

  predicate GoodResult(r: OpResult)
  {
    && !r.header.done
    && (r.header.opType == OP_CREATE ==> |r.text| < TWO32 && r.stat.None? && r.err == 0)
    && (r.header.opType == OP_SET_DATA ==> r.stat.Some? && PlainStat(r.stat.value) && r.text == [] && r.err == 0)
    && (r.header.opType == OP_ERROR ==> r.text == [] && r.stat.None?)
    && (r.header.opType == OP_CHECK || r.header.opType == OP_DELETE ==> r.text == [] && r.stat.None? && r.err == 0)
    && (r.header.opType == OP_CREATE || r.header.opType == OP_SET_DATA || r.header.opType == OP_ERROR
        || r.header.opType == OP_CHECK || r.header.opType == OP_DELETE)
  }

  function ResultBody(r: OpResult): seq<byte>
    requires GoodResult(r)
  {
    if r.header.opType == OP_CREATE then Serializer.Serialize(VString(r.text))
    else if r.header.opType == OP_SET_DATA then Serializer.Serialize(r.stat.value)
    else if r.header.opType == OP_ERROR then Serializer.Serialize(VInt32(r.err))
    else []
  }

  function HeadBytes(h: MultiHeader): seq<byte> { Serializer.Flat(Serializer.HeaderAtoms(h, h.done)) }

  ghost function ReplyBytes(rs: seq<OpResult>, done: MultiHeader): seq<byte>
    requires AllGood(rs)
  {
    if rs == [] then HeadBytes(done) else HeadBytes(rs[0].header) + (ResultBody(rs[0]) + ReplyBytes(rs[1..], done))
  }

  lemma {:induction false} ResultRoundTrip(r: OpResult, b: seq<byte>, len: nat, off: nat)
    requires GoodResult(r) && len <= |b| && Holds(b, off, ResultBody(r)) && off + |ResultBody(r)| <= len
    ensures DecodeResult(r.header, b, len, off) == Got(r, off + |ResultBody(r)|)
  {
    if r.header.opType == OP_CREATE {
      RoundTrip(VString(r.text), SString, b, len, off);
    } else if r.header.opType == OP_SET_DATA {
      RoundTrip(r.stat.value, STAT, b, len, off);
    } else if r.header.opType == OP_ERROR {
      RoundTrip(VInt32(r.err), SInt32, b, len, off);
    }
  }

  ghost predicate AllGood(rs: seq<OpResult>) { forall r :: r in rs ==> GoodResult(r) }

  /** A complete reply is decoded to its results, in order. */
  lemma {:induction false} ReplyRoundTrip(rs: seq<OpResult>, done: MultiHeader, b: seq<byte>, len: nat, off: nat)
    requires AllGood(rs) && done.done && len <= |b|
    requires Holds(b, off, ReplyBytes(rs, done)) && off + |ReplyBytes(rs, done)| <= len
    ensures DecodeReply(b, len, off) == (rs, Closed(done, off + |ReplyBytes(rs, done)|))
    decreases rs
  {
    hide *;
    if rs == [] {
      ReplyEnd(done, b, len, off);
    } else {
      ReplyCons(rs, done, b, off);
      ReplyHead(rs[0], b, len, off);
      ReplyRoundTrip(rs[1..], done, b, len, off + HEADER_SIZE + |ResultBody(rs[0])|);
      assert rs == [rs[0]] + rs[1..];
    }
  }

  lemma {:induction false} ReplyEnd(done: MultiHeader, b: seq<byte>, len: nat, off: nat)
    requires done.done && len <= |b| && Holds(b, off, ReplyBytes([], done)) && off + |ReplyBytes([], done)| <= len
    ensures DecodeReply(b, len, off) == ([], Closed(done, off + |ReplyBytes([], done)|))
  {
    RoundTripHeader(done, true, b, len, off);
  }

  lemma {:induction false} ReplyCons(rs: seq<OpResult>, done: MultiHeader, b: seq<byte>, off: nat)
    requires rs != [] && AllGood(rs) && Holds(b, off, ReplyBytes(rs, done))
    ensures AllGood(rs[1..]) && GoodResult(rs[0]) && HEADER_SIZE == 9
    ensures Holds(b, off, HeadBytes(rs[0].header)) && Holds(b, off + HEADER_SIZE, ResultBody(rs[0]))
    ensures Holds(b, off + HEADER_SIZE + |ResultBody(rs[0])|, ReplyBytes(rs[1..], done))
    ensures |ReplyBytes(rs, done)| == HEADER_SIZE + |ResultBody(rs[0])| + |ReplyBytes(rs[1..], done)|
  {
    hide HeadBytes, ResultBody, GoodResult;
    HeadSize(rs[0].header);
    HoldsBoth(b, off, HeadBytes(rs[0].header), ResultBody(rs[0]) + ReplyBytes(rs[1..], done));
    HoldsBoth(b, off + HEADER_SIZE, ResultBody(rs[0]), ReplyBytes(rs[1..], done));
  }

  lemma {:induction false} HeadSize(h: MultiHeader)
    ensures |HeadBytes(h)| == HEADER_SIZE
  {
    HeaderBytes(h, h.done);
  }

  /** The first result of a reply is decoded, and the rest follows. */
  lemma {:induction false} ReplyHead(r: OpResult, b: seq<byte>, len: nat, off: nat)
    requires GoodResult(r) && len <= |b|
    requires Holds(b, off, HeadBytes(r.header)) && Holds(b, off + HEADER_SIZE, ResultBody(r))
    requires off + HEADER_SIZE + |ResultBody(r)| <= len
    ensures var (rest, end) := DecodeReply(b, len, off + HEADER_SIZE + |ResultBody(r)|);
            DecodeReply(b, len, off) == ([r] + rest, end)
  {
    hide DecodeHeader, DecodeResult, ResultBody;
    HeadSize(r.header);
    RoundTripHeader(r.header, false, b, len, off);
    ResultRoundTrip(r, b, len, off + HEADER_SIZE);
  }
}
