/** encodePacketValue and multiRequest.Encode (zk/structs.go:293-311, 514-584),
    which write a value into a buffer in place.  A Go sub-slice buf[n:] is the array
    from an offset on; buffers are used with their length equal to their capacity. */
module Encoder {
  import opened Bytes
  import opened Packets
  import opened Serializer

  /** The array holds `written` from `off` on and is as before elsewhere. */
  ghost predicate Wrote(before: seq<byte>, after: seq<byte>, off: nat, written: seq<byte>)
  {
    && |after| == |before| && off + |written| <= |before|
    && after == before[..off] + written + before[off + |written|..]
  }

  /** Only positions from `off` on may differ. */
  ghost predicate KeptBelow(before: seq<byte>, after: seq<byte>, off: nat)
  {
    |after| == |before| && off <= |before| && after[..off] == before[..off]
  }

  lemma {:induction false} WroteNothing(before: seq<byte>, off: nat)
    requires off <= |before|
    ensures Wrote(before, before, off, [])
  {
    assert before == before[..off] + [] + before[off..];
  }

  lemma {:induction false} WroteThenWrote(a: seq<byte>, b: seq<byte>, c: seq<byte>, off: nat, first: seq<byte>, second: seq<byte>)
    requires Wrote(a, b, off, first) && Wrote(b, c, off + |first|, second)
    ensures Wrote(a, c, off, first + second)
  {
    var mid := off + |first|;
    assert b[..mid] == a[..off] + first;
    assert b[mid + |second|..] == a[off..][|first| + |second|..];
    assert a[off + |first + second|..] == a[off..][|first| + |second|..];
    assert c == a[..off] + first + second + a[off + |first + second|..];
    assert c == a[..off] + (first + second) + a[off + |first + second|..];
  }

  lemma {:induction false} WroteThenKept(a: seq<byte>, b: seq<byte>, c: seq<byte>, off: nat, first: seq<byte>)
    requires Wrote(a, b, off, first) && KeptBelow(b, c, off + |first|)
    ensures KeptBelow(a, c, off)
  {
    assert c[..off] == c[..off + |first|][..off] == b[..off + |first|][..off] == b[..off];
    assert b[..off] == a[..off];
  }

  /** An encode of `atoms` at `off` ended with outcome r: its outcome is the one
      the atoms determine, nothing below `off` changed, and on success exactly the
      atoms' bytes were written, n of them, and nothing else changed. */
  ghost predicate Encodes(before: seq<byte>, after: seq<byte>, off: nat, atoms: seq<Atom>, r: Outcome, n: nat)
    requires off <= |before|
  {
    && r == Fill(atoms, |before| - off)
    && KeptBelow(before, after, off)
    && (r.Done? ==> Wrote(before, after, off, Flat(atoms)) && n == |Flat(atoms)|)
  }

  lemma {:induction false} EncodesNothing(before: seq<byte>, off: nat)
    requires off <= |before|
    ensures Encodes(before, before, off, [], Done, 0)
  {
    WroteNothing(before, off);
  }

  /** Two encodes one after the other are the encode of both. */
  lemma {:induction false} EncodesThen(a: seq<byte>, b: seq<byte>, c: seq<byte>, off: nat, first: seq<Atom>, n: nat, second: seq<Atom>, r: Outcome, m: nat)
    requires off <= |a| && Encodes(a, b, off, first, Done, n)
    requires off + n <= |b| && Encodes(b, c, off + n, second, r, m)
    ensures Encodes(a, c, off, first + second, r, n + m)
  {
    FillAppend(first, second, |a| - off);
    FlatAppend(first, second);
    WroteThenKept(a, b, c, off, Flat(first));
    if r.Done? {
      WroteThenWrote(a, b, c, off, Flat(first), Flat(second));
    }
  }

  /** A failed encode fails the same way whatever was to follow. */
  lemma {:induction false} EncodesFails(a: seq<byte>, b: seq<byte>, off: nat, first: seq<Atom>, r: Outcome, n: nat, rest: seq<Atom>)
    requires off <= |a| && Encodes(a, b, off, first, r, n) && !r.Done?
    ensures Encodes(a, b, off, first + rest, r, n)
  {
    FillAppend(first, rest, |a| - off);
  }

  /** binary.BigEndian.PutUint32 or copy into buf[off:off+len(bytes)]. */
  method Store(buf: array<byte>, off: nat, bytes: seq<byte>) returns (r: Outcome, n: nat)
    requires off <= buf.Length
    modifies buf
    ensures Encodes(old(buf[..]), buf[..], off, [Fixed(bytes)], r, n)
  {
    FlatOne(Fixed(bytes));
    if off + |bytes| > buf.Length {
      return ShortBuffer, 0;
    }
    forall k | 0 <= k < |bytes| {
      buf[off + k] := bytes[k];
    }
    return Done, |bytes|;
  }

  /** buf[off] = 0 or 1 */
  method StoreFlag(buf: array<byte>, off: nat, flag: bool) returns (r: Outcome, n: nat)
    requires off <= buf.Length
    modifies buf
    ensures Encodes(old(buf[..]), buf[..], off, [Flag(flag)], r, n)
  {
    FlatOne(Flag(flag));
    if off >= buf.Length {
      return IndexPanic, 0;
    }
    buf[off] := if flag then 1 else 0;
    return Done, 1;
  }

  /** The fields of a multiHeader. */
  method EncodeHeader(buf: array<byte>, off: nat, h: MultiHeader, done: bool) returns (r: Outcome, n: nat)
    requires off <= buf.Length
    modifies buf
    ensures Encodes(old(buf[..]), buf[..], off, HeaderAtoms(h, done), r, n)
  {
    ghost var start := buf[..];
    ghost var t, d, e := Fixed(Put32(Unsigned32(h.opType))), Flag(done), Fixed(Put32(Unsigned32(h.err)));
    r, n := Store(buf, off, Put32(Unsigned32(h.opType)));
    assert HeaderAtoms(h, done) == [t] + ([d] + [e]) == ([t] + [d]) + [e];
    if !r.Done? {
      EncodesFails(start, buf[..], off, [t], r, n, [d] + [e]);
      return;
    }
    ghost var afterType := buf[..];
    var m: nat;
    r, m := StoreFlag(buf, off + n, done);
    EncodesThen(start, afterType, buf[..], off, [t], n, [d], r, m);
    n := n + m;
    if !r.Done? {
      EncodesFails(start, buf[..], off, [t] + [d], r, n, [e]);
      return;
    }
    ghost var afterDone := buf[..];
    r, m := Store(buf, off + n, Put32(Unsigned32(h.err)));
    EncodesThen(start, afterDone, buf[..], off, [t] + [d], n, [e], r, m);
    n := n + m;
  }

  /** encodePacketValue: the in-place encoder refines the serializer. */
  method EncodeValue(buf: array<byte>, off: nat, v: Value) returns (r: Outcome, n: nat)
    requires off <= buf.Length
    modifies buf
    ensures Encodes(old(buf[..]), buf[..], off, Atoms(v), r, n)
    decreases v, 1
  {
    match v {
      case VUnhandled => return UnhandledType, 0;
      case VBool(flag) => r, n := StoreFlag(buf, off, flag);
      case VInt32(i) => r, n := Store(buf, off, Put32(Unsigned32(i)));
      case VInt64(l) => r, n := Store(buf, off, Put64(Unsigned64(l)));
      case VString(text) => r, n := Store(buf, off, Put32(Length32(|text|)) + text);
      case VNilBytes => r, n := Store(buf, off, Put32(0xffff_ffff));
      case VBytes(data) => r, n := Store(buf, off, Put32(Length32(|data|)) + data);
      case VStruct(fields) => r, n := EncodeFields(buf, off, fields);
      case VNilSlice => r, n := Store(buf, off, Put32(0));
      case VSlice(elems) => r, n := EncodeSlice(buf, off, elems);
      case VMulti(ops, done) => r, n := EncodeMulti(buf, off, ops, done);
    }
  }

  /** The fields of a struct, one after the other. */
  method EncodeFields(buf: array<byte>, off: nat, fields: seq<Value>) returns (r: Outcome, n: nat)
    requires off <= buf.Length
    modifies buf
    ensures Encodes(old(buf[..]), buf[..], off, AtomsAll(fields), r, n)
    decreases fields, 0
  {
    ghost var start := buf[..];
    EncodesNothing(start, off);
    r, n := Done, 0;
    var i := 0;
    while i < |fields|
      invariant 0 <= i <= |fields| && r.Done?
      invariant Encodes(start, buf[..], off, AtomsAll(fields[..i]), Done, n)
    {
      ghost var here := buf[..];
      var m: nat;
      r, m := EncodeValue(buf, off + n, fields[i]);
      EncodesThen(start, here, buf[..], off, AtomsAll(fields[..i]), n, Atoms(fields[i]), r, m);
      NextField(fields, i);
      n := n + m;
      if !r.Done? {
        EncodesFails(start, buf[..], off, AtomsAll(fields[..i + 1]), r, n, AtomsAll(fields[i + 1..]));
        return;
      }
      i := i + 1;
    }
    assert fields[..i] == fields;
  }

  lemma {:induction false} NextField(fields: seq<Value>, i: nat)
    requires i < |fields|
    ensures AtomsAll(fields[..i + 1]) == AtomsAll(fields[..i]) + Atoms(fields[i])
    ensures AtomsAll(fields) == AtomsAll(fields[..i + 1]) + AtomsAll(fields[i + 1..])
  {
    assert fields[..i + 1] == fields[..i] + [fields[i]];
    AtomsAllSnoc(fields[..i], fields[i]);
    assert fields == fields[..i + 1] + fields[i + 1..];
    AtomsAllAppend(fields[..i + 1], fields[i + 1..]);
  }

  lemma {:induction false} AtomsAllAppend(a: seq<Value>, b: seq<Value>)
    ensures AtomsAll(a + b) == AtomsAll(a) + AtomsAll(b)
  {
    if a == [] {
      assert a + b == b;
    } else {
      assert (a + b)[1..] == a[1..] + b;
      AtomsAllAppend(a[1..], b);
    }
  }

  /** A slice: room for the count, the elements, and then the count. */
  method EncodeSlice(buf: array<byte>, off: nat, elems: seq<Value>) returns (r: Outcome, n: nat)
    requires off <= buf.Length
    modifies buf
    ensures Encodes(old(buf[..]), buf[..], off, [Fixed(Put32(Length32(|elems|)))] + AtomsAll(elems), r, n)
    decreases elems, 1
  {
    ghost var start := buf[..];
    ghost var count := Fixed(Put32(Length32(|elems|)));
    FlatOne(count);
    n := 0;
    if elems == [] {
      EncodesNothing(start, off);
    } else if off + 4 > buf.Length {
      EncodesFails(start, start, off, [count], ShortBuffer, 0, AtomsAll(elems));
      return ShortBuffer, 0;
    } else {
      r, n := EncodeFields(buf, off + 4, elems);
      if !r.Done? {
        AfterCount(start, buf[..], off, Put32(Length32(|elems|)), AtomsAll(elems), r, n);
        return;
      }
    }
    ghost var filled := buf[..];
    var m: nat;
    r, m := Store(buf, off, Put32(Length32(|elems|)));
    if !r.Done? {
      EncodesFails(start, buf[..], off, [count], r, m, AtomsAll(elems));
    } else {
      if elems == [] {
        EncodesNothing(start, off + 4);
      }
      Patched(start, filled, buf[..], off, Put32(Length32(|elems|)), AtomsAll(elems), n);
    }
    n := n + m;
  }

  /** Elements that fail behind the room left for the count. */
  lemma {:induction false} AfterCount(a: seq<byte>, b: seq<byte>, off: nat, count: seq<byte>, atoms: seq<Atom>, r: Outcome, n: nat)
    requires off + |count| <= |a| && Encodes(a, b, off + |count|, atoms, r, n) && !r.Done?
    ensures Encodes(a, b, off, [Fixed(count)] + atoms, r, n)
  {
    FillAppend([Fixed(count)], atoms, |a| - off);
    KeptLower(a, b, off + |count|, off);
    FlatOne(Fixed(count));
  }

  lemma {:induction false} KeptLower(before: seq<byte>, after: seq<byte>, high: nat, low: nat)
    requires KeptBelow(before, after, high) && low <= high
    ensures KeptBelow(before, after, low)
  {
    assert after[..low] == after[..high][..low] && before[..low] == before[..high][..low];
  }

  /** Writing the count after the elements gives the same bytes as writing it first. */
  lemma {:induction false} Patched(a: seq<byte>, b: seq<byte>, c: seq<byte>, off: nat, count: seq<byte>, atoms: seq<Atom>, n: nat)
    requires off + |count| <= |a| && Encodes(a, b, off + |count|, atoms, Done, n)
    requires Wrote(b, c, off, count)
    ensures Encodes(a, c, off, [Fixed(count)] + atoms, Done, |count| + n)
  {
    var bytes, mid := Flat(atoms), off + |count|;
    FlatAppend([Fixed(count)], atoms);
    FillAppend([Fixed(count)], atoms, |a| - off);
    assert b[..off] == a[..mid][..off] == a[..off];
    assert b[mid..] == bytes + a[mid + n..];
    assert c == a[..off] + count + (bytes + a[mid + n..]);
    assert c == a[..off] + (count + bytes) + a[mid + n..];
    assert c[..off] == a[..off];
  }

  /** multiRequest.Encode: every operation's header with Done cleared and its
      body, and then the closing header with Done set. */
  method EncodeMulti(buf: array<byte>, off: nat, ops: seq<MultiOp>, done: MultiHeader) returns (r: Outcome, n: nat)
    requires off <= buf.Length
    modifies buf
    ensures Encodes(old(buf[..]), buf[..], off, AtomsOps(ops) + HeaderAtoms(done, true), r, n)
    decreases ops, 1
  {
    ghost var start := buf[..];
    r, n := EncodeOps(buf, off, ops);
    if !r.Done? {
      EncodesFails(start, buf[..], off, AtomsOps(ops), r, n, HeaderAtoms(done, true));
      return;
    }
    ghost var here := buf[..];
    var m: nat;
    r, m := EncodeHeader(buf, off + n, done, true);
    EncodesThen(start, here, buf[..], off, AtomsOps(ops), n, HeaderAtoms(done, true), r, m);
    n := n + m;
  }

  method EncodeOps(buf: array<byte>, off: nat, ops: seq<MultiOp>) returns (r: Outcome, n: nat)
    requires off <= buf.Length
    modifies buf
    ensures Encodes(old(buf[..]), buf[..], off, AtomsOps(ops), r, n)
    decreases ops, 0
  {
    ghost var start := buf[..];
    EncodesNothing(start, off);
    r, n := Done, 0;
    var i := 0;
    while i < |ops|
      invariant 0 <= i <= |ops| && r.Done?
      invariant Encodes(start, buf[..], off, AtomsOps(ops[..i]), Done, n)
    {
      ghost var here := buf[..];
      var m: nat;
      r, m := EncodeOp(buf, off + n, ops[i]);
      EncodesThen(start, here, buf[..], off, AtomsOps(ops[..i]), n, AtomsOp(ops[i]), r, m);
      NextOp(ops, i);
      n := n + m;
      if !r.Done? {
        EncodesFails(start, buf[..], off, AtomsOps(ops[..i + 1]), r, n, AtomsOps(ops[i + 1..]));
        return;
      }
      i := i + 1;
    }
    assert ops[..i] == ops;
  }

  /** One multiRequestOp: its header, then its operation. */
  method EncodeOp(buf: array<byte>, off: nat, op: MultiOp) returns (r: Outcome, n: nat)
    requires off <= buf.Length
    modifies buf
    ensures Encodes(old(buf[..]), buf[..], off, AtomsOp(op), r, n)
    decreases op, 0
  {
    ghost var start := buf[..];
    ghost var head := HeaderAtoms(op.header, false);
    r, n := EncodeHeader(buf, off, op.header, false);
    if !r.Done? {
      EncodesFails(start, buf[..], off, head, r, n, Atoms(op.op));
      return;
    }
    ghost var here := buf[..];
    var m: nat;
    r, m := EncodeValue(buf, off + n, op.op);
    EncodesThen(start, here, buf[..], off, head, n, Atoms(op.op), r, m);
    n := n + m;
  }

  lemma {:induction false} NextOp(ops: seq<MultiOp>, i: nat)
    requires i < |ops|
    ensures AtomsOps(ops[..i + 1]) == AtomsOps(ops[..i]) + AtomsOp(ops[i])
    ensures AtomsOps(ops) == AtomsOps(ops[..i + 1]) + AtomsOps(ops[i + 1..])
  {
    assert ops[..i + 1] == ops[..i] + [ops[i]];
    AtomsOpsSnoc(ops[..i], ops[i]);
    assert ops == ops[..i + 1] + ops[i + 1..];
    AtomsOpsAppend(ops[..i + 1], ops[i + 1..]);
  }

  lemma {:induction false} AtomsOpsAppend(a: seq<MultiOp>, b: seq<MultiOp>)
    ensures AtomsOps(a + b) == AtomsOps(a) + AtomsOps(b)
  {
    if a == [] {
      assert a + b == b;
    } else {
      assert (a + b)[1..] == a[1..] + b;
      AtomsOpsAppend(a[1..], b);
    }
  }

  /** encodePacket, for a buffer used from `off` on (c.buf[4:], zk/conn.go:754-766):
      it succeeds exactly when every part has an encoding and the bytes fit; then it
      returns their number and they are exactly the serialized value. */
  method EncodePacket(buf: array<byte>, off: nat, v: Value) returns (r: Outcome, n: nat)
    requires off <= buf.Length
    modifies buf
    ensures r.Done? <==> Encodable(Atoms(v)) && off + |Serialize(v)| <= buf.Length
    ensures r.Done? ==> n == |Serialize(v)| && Wrote(old(buf[..]), buf[..], off, Serialize(v))
    ensures !r.Done? ==>
              exists k: nat :: FirstFailure(Atoms(v), buf.Length - off, k) && r == FailureOf(Atoms(v)[k])
    ensures KeptBelow(old(buf[..]), buf[..], off)
    // byte by byte, and error by error
    ensures r.Done? ==>
              && off + n <= buf.Length && buf[off..off + n] == Serialize(v)
              && (forall i :: 0 <= i < off || off + n <= i < buf.Length ==> buf[i] == old(buf[i]))
    ensures forall i :: 0 <= i < off ==> buf[i] == old(buf[i])
    ensures !r.Done? ==>
              exists k: nat :: FirstFailure(Atoms(v), buf.Length - off, k) &&
                               (r.IndexPanic? <==> Atoms(v)[k].Flag?) &&
                               (r.ShortBuffer? <==> Atoms(v)[k].Fixed?)
  {
    hide Wrote, KeptBelow, FirstFailure, FailureOf, Fill, Atoms, Encodable, Flat, AtomBytes;
    ghost var before := buf[..];
    FillSucceeds(Atoms(v), buf.Length - off);
    if !Fill(Atoms(v), buf.Length - off).Done? {
      ghost var k := FillFailure(Atoms(v), buf.Length - off);
      FailureMeans(Atoms(v)[k]);
    }
    r, n := EncodeValue(buf, off, v);
    if r.Done? {
      WroteMeans(before, buf[..], off, Serialize(v));
    }
    KeptMeans(before, buf[..], off);
  }

  lemma {:induction false} FailureMeans(a: Atom)
    ensures (FailureOf(a) == IndexPanic <==> a.Flag?) && (FailureOf(a) == ShortBuffer <==> a.Fixed?)
  {
  }

  lemma {:induction false} KeptMeans(before: seq<byte>, after: seq<byte>, off: nat)
    ensures KeptBelow(before, after, off) ==>
              |after| == |before| && off <= |before| && forall i :: 0 <= i < off ==> after[i] == before[i]
  {
    if KeptBelow(before, after, off) {
      forall i | 0 <= i < off ensures after[i] == before[i] {
        assert after[..off][i] == before[..off][i];
      }
    }
  }

  lemma {:induction false} WroteMeans(before: seq<byte>, after: seq<byte>, off: nat, written: seq<byte>)
    requires Wrote(before, after, off, written)
    ensures |after| == |before| && off + |written| <= |before| && after[off..off + |written|] == written
    ensures forall i :: 0 <= i < off || off + |written| <= i < |before| ==> after[i] == before[i]
    ensures KeptBelow(before, after, off)
  {
  }
}
