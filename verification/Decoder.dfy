/** decodePacketValue and multiRequest.Decode (zk/structs.go:313-341, 423-494).

    A Go slice is given by the bytes up to its capacity and its length: slicing
    buf[n:] checks n against the length, slicing buf[n:n+4] checks against the
    capacity, and indexing buf[n] checks against the length. */
module Decoder {
  import opened Text
  import opened Bytes
  import opened Packets

  datatype DecodeError = ShortBuffer | IndexPanic | UnhandledType | APIError

  /** A value and the offset behind it, or how the decode ended. */
  datatype Decoded<+T> = Got(value: T, next: nat) | Lost(error: DecodeError)

  function Rest(b: seq<byte>, off: nat): nat { if off <= |b| then |b| - off else 0 }

  function Int32At(b: seq<byte>, off: nat): int32
    requires off + 4 <= |b|
  {
    Signed32(Get32(b[off..off + 4]))
  }

  /** The value of type s at offset off of a buffer of length `len` and capacity |b|. */
  function Decode(s: Schema, b: seq<byte>, len: nat, off: nat): (r: Decoded<Value>)
    requires len <= |b|
    ensures r.Got? ==> off <= r.next <= |b|
    decreases Rest(b, off), s, 1
  {
    if off > len then Lost(ShortBuffer)
    else
      match s
      case SUnhandled => Lost(UnhandledType)
      case SBool => if off == len then Lost(IndexPanic) else Got(VBool(b[off] != 0), off + 1)
      case SInt32 => if off + 4 > |b| then Lost(ShortBuffer) else Got(VInt32(Int32At(b, off)), off + 4)
      case SInt64 =>
        if off + 8 > |b| then Lost(ShortBuffer) else Got(VInt64(Signed64(Get64(b[off..off + 8]))), off + 8)
      case SString =>
        if off + 4 > |b| then Lost(ShortBuffer)
        else
          var ln := Get32(b[off..off + 4]);
          if off + 4 + ln > |b| then Lost(ShortBuffer) else Got(VString(b[off + 4..off + 4 + ln]), off + 4 + ln)
      case SBytes =>
        if off + 4 > |b| then Lost(ShortBuffer)
        else
          var ln := Int32At(b, off);
          if ln < 0 then Got(VNilBytes, off + 4)
          else if off + 4 + ln > |b| then Lost(ShortBuffer)
          else Got(VBytes(b[off + 4..off + 4 + ln]), off + 4 + ln)
      case SStruct(fields) =>
        var r := DecodeFields(fields, b, len, off);
        if r.Lost? then Lost(r.error) else Got(VStruct(r.value), r.next)
      case SSlice(elem) =>
        if off + 4 > |b| then Lost(ShortBuffer)
        else
          var r := DecodeElems(elem, Get32(b[off..off + 4]), b, len, off + 4);
          if r.Lost? then Lost(r.error) else Got(VSlice(r.value), r.next)
      case SMulti =>
        DecodeMulti(b, len, off)
  }

  function DecodeFields(fields: seq<Schema>, b: seq<byte>, len: nat, off: nat): (r: Decoded<seq<Value>>)
    requires len <= |b| && off <= |b|
    ensures r.Got? ==> off <= r.next <= |b|
    decreases Rest(b, off), fields, 0
  {
    if fields == [] then Got([], off)
    else
      var first := Decode(fields[0], b, len, off);
      if first.Lost? then Lost(first.error)
      else
        var rest := DecodeFields(fields[1..], b, len, first.next);
        if rest.Lost? then rest else Got([first.value] + rest.value, rest.next)
  }

  function DecodeElems(elem: Schema, count: nat, b: seq<byte>, len: nat, off: nat): (r: Decoded<seq<Value>>)
    requires len <= |b| && off <= |b|
    ensures r.Got? ==> off <= r.next <= |b|
    decreases Rest(b, off), elem, count + 2
  {
    if count == 0 then Got([], off)
    else
      var first := Decode(elem, b, len, off);
      if first.Lost? then Lost(first.error)
      else
        var rest := DecodeElems(elem, count - 1, b, len, first.next);
        if rest.Lost? then rest else Got([first.value] + rest.value, rest.next)
  }

  const HEADER_SIZE := 9

  /** The three fields of a multiHeader. */
  function DecodeHeader(b: seq<byte>, len: nat, off: nat): (r: Decoded<MultiHeader>)
    requires len <= |b|
    ensures r.Got? ==> r.next == off + HEADER_SIZE <= |b|
  {
    if off > len || off + 4 > |b| || off + 4 > len then Lost(ShortBuffer)
    else if off + 4 == len then Lost(IndexPanic)
    else if off + 9 > |b| then Lost(ShortBuffer)
    else Got(MultiHeader(Int32At(b, off), b[off + 4] != 0, Int32At(b, off + 5)), off + 9)
  }

  /** multiRequest.Decode: operations up to a header with Done set. */
  function DecodeMulti(b: seq<byte>, len: nat, off: nat): (r: Decoded<Value>)
    requires len <= |b|
    ensures r.Got? ==> off <= r.next <= |b| && r.value.VMulti?
    decreases Rest(b, off), SMulti, 0
  {
    var h := DecodeHeader(b, len, off);
    if h.Lost? then Lost(h.error)
    else if h.value.done then Got(VMulti([], h.value), h.next)
    else
      var s := RequestSchema(h.value.opType);
      if s.None? then Lost(APIError)
      else
        var op := Decode(s.value, b, len, h.next);
        if op.Lost? then Lost(op.error)
        else
          var rest := DecodeMulti(b, len, op.next);
          if rest.Lost? then rest
          else Got(VMulti([MultiOp(h.value, op.value)] + rest.value.ops, rest.value.done), rest.next)
  }

  // ----- the loops that run

  lemma {:induction false} OneMore(next: Decoded<Value>)
    ensures next.Got? ==> [next.value] + [] == [] + [next.value]
  {
  }

  lemma {:induction false} FieldsStep(fields: seq<Schema>, b: seq<byte>, len: nat, off: nat, i: nat)
    requires len <= |b| && off <= |b| && i < |fields|
    ensures var done := DecodeFields(fields[..i], b, len, off);
            done.Got? ==>
              var next := Decode(fields[i], b, len, done.next);
              && (next.Got? ==> DecodeFields(fields[..i + 1], b, len, off) == Got(done.value + [next.value], next.next))
              && (next.Lost? ==> DecodeFields(fields, b, len, off) == Lost(next.error))
  {
    if i == 0 {
      assert fields[..1] == [fields[0]] && fields[..1][1..] == [];
      OneMore(Decode(fields[0], b, len, off));
    } else {
      var first := Decode(fields[0], b, len, off);
      assert fields[..i][1..] == fields[1..][..i - 1] && fields[..i + 1][1..] == fields[1..][..i];
      if first.Got? {
        FieldsStep(fields[1..], b, len, first.next, i - 1);
        var done := DecodeFields(fields[1..][..i - 1], b, len, first.next);
        if done.Got? {
          var next := Decode(fields[i], b, len, done.next);
          if next.Got? {
            assert [first.value] + (done.value + [next.value]) == [first.value] + done.value + [next.value];
          }
        }
      }
    }
  }

  lemma {:induction false} ElemsStep(elem: Schema, count: nat, b: seq<byte>, len: nat, off: nat, i: nat)
    requires len <= |b| && off <= |b| && i < count
    ensures var done := DecodeElems(elem, i, b, len, off);
            done.Got? ==>
              var next := Decode(elem, b, len, done.next);
              && (next.Got? ==> DecodeElems(elem, i + 1, b, len, off) == Got(done.value + [next.value], next.next))
              && (next.Lost? ==> DecodeElems(elem, count, b, len, off) == Lost(next.error))
  {
    if i == 0 {
      OneMore(Decode(elem, b, len, off));
    } else {
      var first := Decode(elem, b, len, off);
      if first.Got? {
        ElemsStep(elem, count - 1, b, len, first.next, i - 1);
        var done := DecodeElems(elem, i - 1, b, len, first.next);
        if done.Got? {
          var next := Decode(elem, b, len, done.next);
          if next.Got? {
            assert [first.value] + (done.value + [next.value]) == [first.value] + done.value + [next.value];
          }
        }
      }
    }
  }

  /** decodePacketValue as it runs: the field and element loops fill the target. */
  method DecodeValue(s: Schema, b: seq<byte>, len: nat, off: nat) returns (r: Decoded<Value>)
    requires len <= |b|
    ensures r == Decode(s, b, len, off)
    decreases Rest(b, off), s, 1
  {
    if off > len {
      return Lost(ShortBuffer);
    }
    match s {
      case SStruct(fields) =>
        var values := DecodeStruct(fields, b, len, off);
        return if values.Lost? then Lost(values.error) else Got(VStruct(values.value), values.next);
      case SSlice(elem) =>
        if off + 4 > |b| {
          return Lost(ShortBuffer);
        }
        var values := DecodeSlice(elem, Get32(b[off..off + 4]), b, len, off + 4);
        return if values.Lost? then Lost(values.error) else Got(VSlice(values.value), values.next);
      case SMulti =>
        r := DecodeOperations(b, len, off);
      case SUnhandled =>
        return Lost(UnhandledType);
      case SBool =>
        if off >= len {
          return Lost(IndexPanic);
        }
        return Got(VBool(b[off] != 0), off + 1);
      case SInt32 =>
        if off + 4 > |b| {
          return Lost(ShortBuffer);
        }
        return Got(VInt32(Int32At(b, off)), off + 4);
      case SInt64 =>
        if off + 8 > |b| {
          return Lost(ShortBuffer);
        }
        return Got(VInt64(Signed64(Get64(b[off..off + 8]))), off + 8);
      case SString =>
        if off + 4 > |b| {
          return Lost(ShortBuffer);
        }
        var ln := Get32(b[off..off + 4]);
        if off + 4 + ln > |b| {
          return Lost(ShortBuffer);
        }
        return Got(VString(b[off + 4..off + 4 + ln]), off + 4 + ln);
      case SBytes =>
        if off + 4 > |b| {
          return Lost(ShortBuffer);
        }
        var ln := Int32At(b, off);
        if ln < 0 {
          return Got(VNilBytes, off + 4);
        }
        if off + 4 + ln > |b| {
          return Lost(ShortBuffer);
        }
        return Got(VBytes(b[off + 4..off + 4 + ln]), off + 4 + ln);
    }
  }

  method DecodeStruct(fields: seq<Schema>, b: seq<byte>, len: nat, off: nat) returns (r: Decoded<seq<Value>>)
    requires len <= |b| && off <= |b|
    ensures r == DecodeFields(fields, b, len, off)
    decreases Rest(b, off), fields, 0
  {
    var values := [];
    var n := off;
    var i := 0;
    while i < |fields|
      invariant 0 <= i <= |fields| && off <= n <= |b|
      invariant DecodeFields(fields[..i], b, len, off) == Got(values, n)
    {
      FieldsStep(fields, b, len, off, i);
      var field := DecodeValue(fields[i], b, len, n);
      if field.Lost? {
        return Lost(field.error);
      }
      values, n := values + [field.value], field.next;
      i := i + 1;
    }
    assert fields[..i] == fields;
    return Got(values, n);
  }

  method DecodeSlice(elem: Schema, count: nat, b: seq<byte>, len: nat, off: nat) returns (r: Decoded<seq<Value>>)
    requires len <= |b| && off <= |b|
    ensures r == DecodeElems(elem, count, b, len, off)
    decreases Rest(b, off), elem, 2
  {
    var values := [];
    var n := off;
    var i := 0;
    while i < count
      invariant 0 <= i <= count && off <= n <= |b|
      invariant DecodeElems(elem, i, b, len, off) == Got(values, n)
    {
      ElemsStep(elem, count, b, len, off, i);
      var value := DecodeValue(elem, b, len, n);
      if value.Lost? {
        return Lost(value.error);
      }
      values, n := values + [value.value], value.next;
      i := i + 1;
    }
    return Got(values, n);
  }

  /** Prepending decoded operations to what a later DecodeMulti finds. */
  function Prepend(ops: seq<MultiOp>, r: Decoded<Value>): Decoded<Value>
    requires r.Got? ==> r.value.VMulti?
  {
    if r.Lost? then r else Got(VMulti(ops + r.value.ops, r.value.done), r.next)
  }

  /** multiRequest.Decode as it runs; its loop ends because every turn consumes a
      header. */
  method DecodeOperations(b: seq<byte>, len: nat, off: nat) returns (r: Decoded<Value>)
    requires len <= |b|
    ensures r == DecodeMulti(b, len, off)
    decreases Rest(b, off), SMulti, 0
  {
    var ops: seq<MultiOp> := [];
    var total := off;
    PrependNothing(DecodeMulti(b, len, off));
    while true
      invariant off <= total
      invariant Rest(b, total) <= Rest(b, off)
      invariant DecodeMulti(b, len, off) == Prepend(ops, DecodeMulti(b, len, total))
      decreases Rest(b, total)
    {
      var header := DecodeHeader(b, len, total);
      if header.Lost? {
        return Lost(header.error);
      }
      if header.value.done {
        assert ops + [] == ops;
        return Got(VMulti(ops, header.value), header.next);
      }
      var schema := RequestSchema(header.value.opType);
      if schema.None? {
        return Lost(APIError);
      }
      var op := DecodeValue(schema.value, b, len, header.next);
      if op.Lost? {
        return Lost(op.error);
      }
      PrependMore(ops, MultiOp(header.value, op.value), DecodeMulti(b, len, op.next));
      ops := ops + [MultiOp(header.value, op.value)];
      total := op.next;
    }
    return Lost(APIError);
  }

  lemma {:induction false} PrependNothing(r: Decoded<Value>)
    requires r.Got? ==> r.value.VMulti?
    ensures Prepend([], r) == r
  {
    if r.Got? {
      assert [] + r.value.ops == r.value.ops;
    }
  }

  lemma {:induction false} PrependMore(ops: seq<MultiOp>, op: MultiOp, r: Decoded<Value>)
    requires r.Got? ==> r.value.VMulti?
    ensures Prepend(ops, Prepend([op], r)) == Prepend(ops + [op], r)
  {
    if r.Got? {
      assert ops + ([op] + r.value.ops) == ops + [op] + r.value.ops;
    }
  }
}
