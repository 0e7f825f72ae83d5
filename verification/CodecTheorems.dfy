/** The laws between the serializer and the decoder. */
module CodecTheorems {
  import opened Text
  import opened Bytes
  import opened Packets
  import opened Serializer
  import opened Decoder

  /** The buffer holds these bytes at this offset. */
  ghost predicate Holds(b: seq<byte>, off: nat, bytes: seq<byte>)
  {
    off + |bytes| <= |b| && b[off..off + |bytes|] == bytes
  }

  lemma {:induction false} HoldsBoth(b: seq<byte>, off: nat, x: seq<byte>, y: seq<byte>)
    requires Holds(b, off, x + y)
    ensures Holds(b, off, x) && Holds(b, off + |x|, y)
  {
    var both := b[off..off + |x| + |y|];
    assert both[..|x|] == x && both[|x|..] == y;
    assert b[off..off + |x|] == both[..|x|] && b[off + |x|..off + |x| + |y|] == both[|x|..];
  }

  // ----- round trip

  /** Decoding a serialized value, wherever it stands in a buffer, gives the value
      back (up to Normalize) and consumes exactly its bytes. */
  lemma {:induction false} RoundTrip(v: Value, s: Schema, b: seq<byte>, len: nat, off: nat)
    requires HasSchema(v, s) && SizesFit(v) && len <= |b|
    requires Holds(b, off, Serialize(v)) && off + |Serialize(v)| <= len
    ensures Decode(s, b, len, off) == Got(Normalize(v), off + |Serialize(v)|)
    decreases v, 1
  {
    match v {
      case VStruct(fields) => RoundTripStruct(fields, s.fields, b, len, off);
      case VSlice(elems) => RoundTripSlice(elems, s.elem, b, len, off);
      case VMulti(ops, done) => RoundTripMulti(ops, done, b, len, off);
      case VString(text) =>
        StringBytes(text);
        RoundTripString(text, b, len, off);
      case VBytes(data) =>
        DataBytes(data);
        RoundTripBytes(data, b, len, off);
      case _ => RoundTripLeaf(v, s, b, len, off);
    }
  }

  lemma {:induction false} RoundTripStruct(vs: seq<Value>, ss: seq<Schema>, b: seq<byte>, len: nat, off: nat)
    requires HaveSchemas(vs, ss) && AllFit(vs) && len <= |b|
    requires Holds(b, off, SerializeAll(vs)) && off + |SerializeAll(vs)| <= len
    ensures Decode(SStruct(ss), b, len, off) == Got(VStruct(NormalizeAll(vs)), off + |SerializeAll(vs)|)
    decreases vs, 1
  {
    RoundTripFields(vs, ss, b, len, off);
  }

  lemma {:induction false} RoundTripSlice(elems: seq<Value>, elem: Schema, b: seq<byte>, len: nat, off: nat)
    requires AllTyped(elems, elem) && AllFit(elems) && |elems| < TWO32 && len <= |b|
    requires Holds(b, off, Serialize(VSlice(elems))) && off + |Serialize(VSlice(elems))| <= len
    ensures Decode(SSlice(elem), b, len, off) == Got(VSlice(NormalizeAll(elems)), off + |Serialize(VSlice(elems))|)
    decreases elems, 1
  {
    SliceBytes(elems, b, off);
    LengthAt(|elems|, b, off);
    RoundTripElems(elems, elem, b, len, off + 4);
  }

  lemma {:induction false} SliceBytes(elems: seq<Value>, b: seq<byte>, off: nat)
    requires |elems| < TWO32 && Holds(b, off, Serialize(VSlice(elems)))
    ensures |Serialize(VSlice(elems))| == 4 + |SerializeAll(elems)|
    ensures Holds(b, off, Put32(|elems|)) && Holds(b, off + 4, SerializeAll(elems))
  {
    hide Holds, Flat, AtomsAll, Put32;
    FlatOne(Fixed(Put32(|elems|)));
    FlatAppend([Fixed(Put32(|elems|))], AtomsAll(elems));
    HoldsBoth(b, off, Put32(|elems|), SerializeAll(elems));
  }

  ghost predicate AllFit(vs: seq<Value>) { forall v :: v in vs ==> SizesFit(v) }

  ghost predicate AllTyped(vs: seq<Value>, s: Schema) { forall v :: v in vs ==> HasSchema(v, s) }

  lemma {:induction false} StringBytes(text: seq<byte>)
    requires |text| < TWO32
    ensures Serialize(VString(text)) == Put32(|text|) + text
  {
    FlatOne(Fixed(Put32(|text|) + text));
  }

  lemma {:induction false} DataBytes(data: seq<byte>)
    requires |data| < TWO32
    ensures Serialize(VBytes(data)) == Put32(|data|) + data
  {
    FlatOne(Fixed(Put32(|data|) + data));
  }

  lemma {:induction false} LengthAt(n: uint32, b: seq<byte>, off: nat)
    requires Holds(b, off, Put32(n))
    ensures Get32(b[off..off + 4]) == n && (n < 0x8000_0000 ==> Int32At(b, off) == n)
  {
    GetPut32(n);
  }

  lemma {:induction false} BlobAt(length: seq<byte>, data: seq<byte>, b: seq<byte>, off: nat)
    requires |length| == 4 && Holds(b, off, length + data)
    ensures Holds(b, off, length) && off + 4 + |data| <= |b| && b[off + 4..off + 4 + |data|] == data
  {
    HoldsBoth(b, off, length, data);
  }

  lemma {:induction false} RoundTripString(text: seq<byte>, b: seq<byte>, len: nat, off: nat)
    requires |text| < TWO32 && len <= |b|
    requires Holds(b, off, Put32(|text|) + text) && off + 4 + |text| <= len
    ensures Decode(SString, b, len, off) == Got(VString(text), off + 4 + |text|)
  {
    BlobAt(Put32(|text|), text, b, off);
    LengthAt(|text|, b, off);
  }

  lemma {:induction false} RoundTripBytes(data: seq<byte>, b: seq<byte>, len: nat, off: nat)
    requires |data| < 0x8000_0000 && len <= |b|
    requires Holds(b, off, Put32(|data|) + data) && off + 4 + |data| <= len
    ensures Decode(SBytes, b, len, off) == Got(VBytes(data), off + 4 + |data|)
  {
    BlobAt(Put32(|data|), data, b, off);
    LengthAt(|data|, b, off);
  }

  lemma {:induction false} RoundTripLeaf(v: Value, s: Schema, b: seq<byte>, len: nat, off: nat)
    requires HasSchema(v, s) && len <= |b|
    requires v.VBool? || v.VInt32? || v.VInt64? || v.VNilBytes? || v.VNilSlice?
    requires Holds(b, off, Serialize(v)) && off + |Serialize(v)| <= len
    ensures Decode(s, b, len, off) == Got(Normalize(v), off + |Serialize(v)|)
  {
    FlatOne(Atoms(v)[0]);
    assert Atoms(v) == [Atoms(v)[0]];
    var bytes := AtomBytes(Atoms(v)[0]);
    assert b[off..off + |bytes|] == bytes;
    match v {
      case VBool(flag) => assert b[off] == bytes[0];
      case VInt32(i) => SignedRoundTrip(i, 0);
      case VInt64(l) => SignedRoundTrip(0, l);
      case VNilBytes => GetPut32(0xffff_ffff);
      case VNilSlice => GetPut32(0);
    }
  }

  lemma {:induction false} RoundTripFields(vs: seq<Value>, ss: seq<Schema>, b: seq<byte>, len: nat, off: nat)
    requires HaveSchemas(vs, ss) && AllFit(vs) && len <= |b|
    requires Holds(b, off, SerializeAll(vs)) && off + |SerializeAll(vs)| <= len
    ensures DecodeFields(ss, b, len, off) == Got(NormalizeAll(vs), off + |SerializeAll(vs)|)
    decreases vs, 0
  {
    hide Decode, HasSchema, SizesFit, Normalize, AllFit, Holds;
    if vs != [] {
      SerializeCons(vs, b, off);
      HaveSchemasTail(vs, ss);
      AllTail(vs);
      RoundTrip(vs[0], ss[0], b, len, off);
      RoundTripFields(vs[1..], ss[1..], b, len, off + |Serialize(vs[0])|);
    }
  }

  lemma {:induction false} SerializeCons(vs: seq<Value>, b: seq<byte>, off: nat)
    requires vs != [] && Holds(b, off, SerializeAll(vs))
    ensures SerializeAll(vs) == Serialize(vs[0]) + SerializeAll(vs[1..])
    ensures Holds(b, off, Serialize(vs[0])) && Holds(b, off + |Serialize(vs[0])|, SerializeAll(vs[1..]))
  {
    hide Holds, Flat, Atoms;
    FlatAppend(Atoms(vs[0]), AtomsAll(vs[1..]));
    HoldsBoth(b, off, Serialize(vs[0]), SerializeAll(vs[1..]));
  }

  lemma {:induction false} AllTail(vs: seq<Value>)
    requires AllFit(vs) && vs != []
    ensures SizesFit(vs[0]) && AllFit(vs[1..])
  {
  }

  lemma {:induction false} AllTypedTail(vs: seq<Value>, s: Schema)
    requires AllTyped(vs, s) && vs != []
    ensures HasSchema(vs[0], s) && AllTyped(vs[1..], s)
  {
  }

  lemma {:induction false} HaveSchemasTail(vs: seq<Value>, ss: seq<Schema>)
    requires HaveSchemas(vs, ss) && vs != []
    ensures HasSchema(vs[0], ss[0]) && HaveSchemas(vs[1..], ss[1..])
  {
  }

  lemma {:induction false} RoundTripElems(vs: seq<Value>, s: Schema, b: seq<byte>, len: nat, off: nat)
    requires AllTyped(vs, s) && AllFit(vs) && len <= |b|
    requires Holds(b, off, SerializeAll(vs)) && off + |SerializeAll(vs)| <= len
    ensures DecodeElems(s, |vs|, b, len, off) == Got(NormalizeAll(vs), off + |SerializeAll(vs)|)
    decreases vs, 0
  {
    hide Decode, HasSchema, SizesFit, Normalize, AllFit, AllTyped, Holds;
    if vs != [] {
      SerializeCons(vs, b, off);
      AllTail(vs);
      AllTypedTail(vs, s);
      RoundTrip(vs[0], s, b, len, off);
      RoundTripElems(vs[1..], s, b, len, off + |Serialize(vs[0])|);
    }
  }

  lemma {:induction false} HeaderBytes(h: MultiHeader, done: bool)
    ensures Flat(HeaderAtoms(h, done)) ==
            Put32(Unsigned32(h.opType)) + ([if done then 1 else 0] + Put32(Unsigned32(h.err)))
    ensures |Flat(HeaderAtoms(h, done))| == HEADER_SIZE
  {
    var t, d, e := Fixed(Put32(Unsigned32(h.opType))), Flag(done), Fixed(Put32(Unsigned32(h.err)));
    assert HeaderAtoms(h, done) == [t] + ([d] + [e]);
    FlatAppend([t], [d] + [e]);
    FlatAppend([d], [e]);
  }

  lemma {:induction false} RoundTripHeader(h: MultiHeader, done: bool, b: seq<byte>, len: nat, off: nat)
    requires len <= |b| && Holds(b, off, Flat(HeaderAtoms(h, done))) && off + |Flat(HeaderAtoms(h, done))| <= len
    ensures DecodeHeader(b, len, off) == Got(h.(done := done), off + HEADER_SIZE)
    ensures |Flat(HeaderAtoms(h, done))| == HEADER_SIZE
  {
    HeaderBytes(h, done);
    var flag: seq<byte> := [if done then 1 else 0];
    HoldsBoth(b, off, Put32(Unsigned32(h.opType)), flag + Put32(Unsigned32(h.err)));
    HoldsBoth(b, off + 4, flag, Put32(Unsigned32(h.err)));
    assert b[off + 4] == b[off + 4..off + 5][0];
    SignedRoundTrip(h.opType, 0);
    SignedRoundTrip(h.err, 0);
  }

  ghost predicate OpsGood(ops: seq<MultiOp>) { forall op :: op in ops ==> OpTyped(op) && SizesFit(op.op) }

  lemma {:induction false} OpsGoodTail(ops: seq<MultiOp>)
    requires OpsGood(ops) && ops != []
    ensures OpTyped(ops[0]) && SizesFit(ops[0].op) && OpsGood(ops[1..])
  {
  }

  function MultiBytes(ops: seq<MultiOp>, done: MultiHeader): seq<byte>
  {
    Flat(AtomsOps(ops) + HeaderAtoms(done, true))
  }

  /** Decode inverts Encode on a multi, nested ones included. */
  lemma {:induction false} RoundTripMulti(ops: seq<MultiOp>, done: MultiHeader, b: seq<byte>, len: nat, off: nat)
    requires OpsGood(ops) && len <= |b|
    requires Holds(b, off, MultiBytes(ops, done)) && off + |MultiBytes(ops, done)| <= len
    ensures DecodeMulti(b, len, off) ==
            Got(VMulti(NormalizeOps(ops), done.(done := true)), off + |MultiBytes(ops, done)|)
    decreases ops, 0
  {
    hide *;
    if ops == [] {
      MultiEnd(done, b, len, off);
    } else {
      MultiCons(ops, done, b, off);
      OpsGoodTail(ops);
      MultiHead(ops[0], b, len, off);
      var next := off + HEADER_SIZE + |Serialize(ops[0].op)|;
      RoundTripMulti(ops[1..], done, b, len, next);
      PrependGot(ops, done.(done := true), next + |MultiBytes(ops[1..], done)|);
    }
  }

  lemma {:induction false} MultiEnd(done: MultiHeader, b: seq<byte>, len: nat, off: nat)
    requires len <= |b| && Holds(b, off, MultiBytes([], done)) && off + |MultiBytes([], done)| <= len
    ensures DecodeMulti(b, len, off) == Got(VMulti(NormalizeOps([]), done.(done := true)), off + |MultiBytes([], done)|)
  {
    assert AtomsOps([]) + HeaderAtoms(done, true) == HeaderAtoms(done, true);
    RoundTripHeader(done, true, b, len, off);
  }

  lemma {:induction false} PrependGot(ops: seq<MultiOp>, done: MultiHeader, next: nat)
    requires ops != []
    ensures Prepend([NormalizeOp(ops[0])], Got(VMulti(NormalizeOps(ops[1..]), done), next)) == Got(VMulti(NormalizeOps(ops), done), next)
  {
    hide Normalize;
  }

  /** The bytes of a multi are a header, an operation, and the bytes of the rest. */
  lemma {:induction false} MultiCons(ops: seq<MultiOp>, done: MultiHeader, b: seq<byte>, off: nat)
    requires ops != [] && Holds(b, off, MultiBytes(ops, done))
    ensures HEADER_SIZE == 9 && Holds(b, off, Flat(HeaderAtoms(ops[0].header, false)))
    ensures Holds(b, off + HEADER_SIZE, Serialize(ops[0].op))
    ensures Holds(b, off + HEADER_SIZE + |Serialize(ops[0].op)|, MultiBytes(ops[1..], done))
    ensures |MultiBytes(ops, done)| == HEADER_SIZE + |Serialize(ops[0].op)| + |MultiBytes(ops[1..], done)|
  {
    hide Holds, Flat, Atoms, HeaderAtoms;
    var head, body, rest := HeaderAtoms(ops[0].header, false), Atoms(ops[0].op), AtomsOps(ops[1..]) + HeaderAtoms(done, true);
    assert AtomsOps(ops) + HeaderAtoms(done, true) == head + (body + rest);
    FlatAppend(head, body + rest);
    FlatAppend(body, rest);
    HeaderBytes(ops[0].header, false);
    HoldsBoth(b, off, Flat(head), Flat(body) + Flat(rest));
    HoldsBoth(b, off + HEADER_SIZE, Flat(body), Flat(rest));
  }

  /** The first operation of a multi is decoded, and the rest follows. */
  lemma {:induction false} MultiHead(op: MultiOp, b: seq<byte>, len: nat, off: nat)
    requires OpTyped(op) && SizesFit(op.op) && len <= |b|
    requires Holds(b, off, Flat(HeaderAtoms(op.header, false))) && Holds(b, off + HEADER_SIZE, Serialize(op.op))
    requires off + HEADER_SIZE + |Serialize(op.op)| <= len
    ensures var next := off + HEADER_SIZE + |Serialize(op.op)|;
            DecodeMulti(b, len, off) == Prepend([NormalizeOp(op)], DecodeMulti(b, len, next))
    decreases op, 1
  {
    hide Decode, DecodeMulti, Normalize, RequestSchema;
    HeaderBytes(op.header, false);
    RoundTripHeader(op.header, false, b, len, off);
    RoundTripOp(op, b, len, off + HEADER_SIZE);
    MultiUnfolds(b, len, off, NormalizeOp(op), off + HEADER_SIZE + |Serialize(op.op)|);
  }

  lemma {:induction false} MultiUnfolds(b: seq<byte>, len: nat, off: nat, op: MultiOp, next: nat)
    requires len <= |b| && DecodeHeader(b, len, off) == Got(op.header, off + HEADER_SIZE)
    requires !op.header.done && RequestSchema(op.header.opType).Some?
    requires Decode(RequestSchema(op.header.opType).value, b, len, off + HEADER_SIZE) == Got(op.op, next)
    ensures DecodeMulti(b, len, off) == Prepend([op], DecodeMulti(b, len, next))
  {
    hide Decode, DecodeHeader, RequestSchema;
  }

  lemma {:induction false} RoundTripOp(op: MultiOp, b: seq<byte>, len: nat, off: nat)
    requires OpTyped(op) && SizesFit(op.op) && len <= |b|
    requires Holds(b, off, Serialize(op.op)) && off + |Serialize(op.op)| <= len
    ensures Decode(RequestSchema(op.header.opType).value, b, len, off) == Got(Normalize(op.op), off + |Serialize(op.op)|)
    decreases op, 0
  {
    RoundTrip(op.op, RequestSchema(op.header.opType).value, b, len, off);
  }

  // ----- a successful decode does not depend on what follows

  lemma {:induction false} DecodeExtends(s: Schema, b: seq<byte>, len: nat, off: nat, b': seq<byte>, len': nat)
    requires len <= |b| && b <= b' && len <= len' <= |b'|
    requires Decode(s, b, len, off).Got?
    ensures Decode(s, b', len', off) == Decode(s, b, len, off)
    decreases Rest(b, off), s, 1
  {
    match s {
      case SStruct(fields) => FieldsExtend(fields, b, len, off, b', len');
      case SSlice(elem) =>
        assert b'[off..off + 4] == b[off..off + 4];
        ElemsExtend(elem, Get32(b[off..off + 4]), b, len, off + 4, b', len');
      case SMulti => MultiExtends(b, len, off, b', len');
      case _ => LeafExtends(s, b, len, off, b', len');
    }
  }

  lemma {:induction false} LeafExtends(s: Schema, b: seq<byte>, len: nat, off: nat, b': seq<byte>, len': nat)
    requires len <= |b| && b <= b' && len <= len' <= |b'|
    requires !s.SStruct? && !s.SSlice? && !s.SMulti? && Decode(s, b, len, off).Got?
    ensures Decode(s, b', len', off) == Decode(s, b, len, off)
  {
    var n := Decode(s, b, len, off).next;
    assert forall i, j :: off <= i <= j <= n ==> b'[i..j] == b[i..j];
  }

  lemma {:induction false} FieldsExtend(fields: seq<Schema>, b: seq<byte>, len: nat, off: nat, b': seq<byte>, len': nat)
    requires len <= |b| && b <= b' && len <= len' <= |b'| && off <= |b|
    requires DecodeFields(fields, b, len, off).Got?
    ensures DecodeFields(fields, b', len', off) == DecodeFields(fields, b, len, off)
    decreases Rest(b, off), fields, 0
  {
    if fields != [] {
      DecodeExtends(fields[0], b, len, off, b', len');
      FieldsExtend(fields[1..], b, len, Decode(fields[0], b, len, off).next, b', len');
    }
  }

  lemma {:induction false} ElemsExtend(elem: Schema, count: nat, b: seq<byte>, len: nat, off: nat, b': seq<byte>, len': nat)
    requires len <= |b| && b <= b' && len <= len' <= |b'| && off <= |b|
    requires DecodeElems(elem, count, b, len, off).Got?
    ensures DecodeElems(elem, count, b', len', off) == DecodeElems(elem, count, b, len, off)
    decreases Rest(b, off), elem, count + 2
  {
    if count > 0 {
      DecodeExtends(elem, b, len, off, b', len');
      ElemsExtend(elem, count - 1, b, len, Decode(elem, b, len, off).next, b', len');
    }
  }

  lemma {:induction false} MultiExtends(b: seq<byte>, len: nat, off: nat, b': seq<byte>, len': nat)
    requires len <= |b| && b <= b' && len <= len' <= |b'|
    requires DecodeMulti(b, len, off).Got?
    ensures DecodeMulti(b', len', off) == DecodeMulti(b, len, off)
    decreases Rest(b, off), SMulti, 0
  {
    assert b'[off..off + 4] == b[off..off + 4] && b'[off + 5..off + 9] == b[off + 5..off + 9];
    var h := DecodeHeader(b, len, off);
    assert DecodeHeader(b', len', off) == h;
    if !h.value.done {
      var s := RequestSchema(h.value.opType).value;
      DecodeExtends(s, b, len, h.next, b', len');
      MultiExtends(b, len, Decode(s, b, len, h.next).next, b', len');
    }
  }

  /** No strict prefix of an encoding, given as the whole buffer, decodes. */
  lemma {:induction false} NoPrefixDecodes(v: Value, s: Schema, k: nat)
    requires HasSchema(v, s) && SizesFit(v) && k < |Serialize(v)|
    ensures Decode(s, Serialize(v)[..k], k, 0).Lost?
  {
    var whole, cut := Serialize(v), Serialize(v)[..k];
    RoundTrip(v, s, whole, |whole|, 0);
    if Decode(s, cut, k, 0).Got? {
      DecodeExtends(s, cut, k, 0, whole, |whole|);
      assert false;
    }
  }

  /** Encodings are uniquely decodable: no encoding is a prefix of another one of
      the same type, unless both are of the same value. */
  lemma {:induction false} PrefixFree(v: Value, w: Value, s: Schema)
    requires HasSchema(v, s) && SizesFit(v) && HasSchema(w, s) && SizesFit(w)
    requires Serialize(v) <= Serialize(w)
    ensures Normalize(v) == Normalize(w) && Serialize(v) == Serialize(w)
  {
    var short, long := Serialize(v), Serialize(w);
    RoundTrip(v, s, long, |long|, 0);
    RoundTrip(w, s, long, |long|, 0);
  }

  /** The same does not hold when the slice has more capacity than length: the
      decoder reads on into stale bytes (zk/conn.go:856-872 passes such slices). */
  lemma {:induction false} StaleBytesDecode()
    ensures var packet := Serialize(VString([65, 66]));
            |packet| == 6 && Decode(SString, packet, 4, 0) == Got(VString([65, 66]), 6)
  {
    var packet := Put32(2) + [65, 66];
    assert Serialize(VString([65, 66])) == packet;
    assert packet[0..4] == Put32(2);
    GetPut32(2);
  }

  // ----- exactly which values survive

  lemma {:induction false} DecodedFits(s: Schema, b: seq<byte>, len: nat, off: nat)
    requires len <= |b| && Decode(s, b, len, off).Got?
    ensures SizesFit(Decode(s, b, len, off).value)
    decreases Rest(b, off), s, 1
  {
    match s {
      case SStruct(fields) => FieldsFit(fields, b, len, off);
      case SSlice(elem) => ElemsFit(elem, Get32(b[off..off + 4]), b, len, off + 4);
      case SMulti => MultiFits(b, len, off);
      case _ =>
    }
  }

  lemma {:induction false} FieldsFit(fields: seq<Schema>, b: seq<byte>, len: nat, off: nat)
    requires len <= |b| && off <= |b| && DecodeFields(fields, b, len, off).Got?
    ensures forall v :: v in DecodeFields(fields, b, len, off).value ==> SizesFit(v)
    decreases Rest(b, off), fields, 0
  {
    if fields != [] {
      DecodedFits(fields[0], b, len, off);
      FieldsFit(fields[1..], b, len, Decode(fields[0], b, len, off).next);
    }
  }

  lemma {:induction false} ElemsFit(elem: Schema, count: nat, b: seq<byte>, len: nat, off: nat)
    requires len <= |b| && off <= |b| && DecodeElems(elem, count, b, len, off).Got?
    ensures |DecodeElems(elem, count, b, len, off).value| == count
    ensures forall v :: v in DecodeElems(elem, count, b, len, off).value ==> SizesFit(v)
    decreases Rest(b, off), elem, count + 2
  {
    if count > 0 {
      DecodedFits(elem, b, len, off);
      ElemsFit(elem, count - 1, b, len, Decode(elem, b, len, off).next);
    }
  }

  lemma {:induction false} MultiFits(b: seq<byte>, len: nat, off: nat)
    requires len <= |b| && DecodeMulti(b, len, off).Got?
    ensures SizesFit(DecodeMulti(b, len, off).value)
    decreases Rest(b, off), SMulti, 0
  {
    var h := DecodeHeader(b, len, off);
    if !h.value.done {
      var s := RequestSchema(h.value.opType).value;
      DecodedFits(s, b, len, h.next);
      MultiFits(b, len, Decode(s, b, len, h.next).next);
    }
  }

  lemma {:induction false} NormalizeKeepsSizes(v: Value)
    requires SizesFit(Normalize(v))
    ensures SizesFit(v)
    decreases v
  {
    match v {
      case VStruct(fields) => NormalizeAllKeepsSizes(fields);
      case VSlice(elems) => NormalizeAllKeepsSizes(elems);
      case VMulti(ops, _) => NormalizeOpsKeepSizes(ops);
      case _ =>
    }
  }

  lemma {:induction false} NormalizeAllKeepsSizes(vs: seq<Value>)
    requires forall v :: v in NormalizeAll(vs) ==> SizesFit(v)
    ensures forall v :: v in vs ==> SizesFit(v)
    decreases vs
  {
    if vs != [] {
      assert Normalize(vs[0]) == NormalizeAll(vs)[0];
      NormalizeKeepsSizes(vs[0]);
      assert NormalizeAll(vs)[1..] == NormalizeAll(vs[1..]);
      NormalizeAllKeepsSizes(vs[1..]);
    }
  }

  lemma {:induction false} NormalizeOpsKeepSizes(ops: seq<MultiOp>)
    requires forall op :: op in NormalizeOps(ops) ==> SizesFit(op.op)
    ensures forall op :: op in ops ==> SizesFit(op.op)
    decreases ops
  {
    if ops != [] {
      assert NormalizeOp(ops[0]) == NormalizeOps(ops)[0];
      NormalizeOpKeepsSizes(ops[0]);
      assert NormalizeOps(ops)[1..] == NormalizeOps(ops[1..]);
      NormalizeOpsKeepSizes(ops[1..]);
    }
  }

  lemma {:induction false} NormalizeOpKeepsSizes(op: MultiOp)
    requires SizesFit(NormalizeOp(op).op)
    ensures SizesFit(op.op)
    decreases op
  {
    NormalizeKeepsSizes(op.op);
  }

  /** The round trip holds exactly for the values whose lengths fit the fields
      that carry them. */
  lemma {:induction false} RoundTripExactly(v: Value, s: Schema)
    requires HasSchema(v, s)
    ensures Decode(s, Serialize(v), |Serialize(v)|, 0) == Got(Normalize(v), |Serialize(v)|) <==> SizesFit(v)
  {
    var b := Serialize(v);
    if SizesFit(v) {
      RoundTrip(v, s, b, |b|, 0);
    }
    if Decode(s, b, |b|, 0) == Got(Normalize(v), |b|) {
      DecodedFits(s, b, |b|, 0);
      NormalizeKeepsSizes(v);
    }
  }
}
