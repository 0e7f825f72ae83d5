/** What becomes of a packet that is cut short (zk/structs.go:405-494). */
module CodecPrefixes {
  import opened Bytes
  import opened Packets
  import opened Serializer
  import opened Decoder
  import opened CodecTheorems

  /** The buffer ends within these bytes. */
  ghost predicate Cut(b: seq<byte>, off: nat, bytes: seq<byte>)
  {
    off <= |b| && |b| - off < |bytes| && b[off..] == bytes[..|b| - off]
  }

  /** Either the first part is cut, or it is whole and the second one is cut. */
  lemma {:induction false} CutBoth(b: seq<byte>, off: nat, x: seq<byte>, y: seq<byte>)
    requires Cut(b, off, x + y)
    ensures if off + |x| <= |b| then Holds(b, off, x) && Cut(b, off + |x|, y) else Cut(b, off, x)
  {
    var room := |b| - off;
    if off + |x| <= |b| {
      assert b[off..off + |x|] == b[off..][..|x|] == (x + y)[..room][..|x|] == x;
      assert b[off + |x|..] == b[off..][|x|..] == (x + y)[..room][|x|..] == y[..room - |x|];
    } else {
      assert (x + y)[..room] == x[..room];
    }
  }

  /** The error that a decode reports where an encode would end like this. */
  function AsLost(o: Serializer.Outcome): DecodeError
    requires !o.Done?
  {
    match o
    case ShortBuffer => Decoder.ShortBuffer
    case IndexPanic => Decoder.IndexPanic
    case UnhandledType => Decoder.UnhandledType
  }

  // ----- what is decoded has an encoding

  lemma {:induction false} TypedIsEncodable(v: Value, s: Schema)
    requires HasSchema(v, s)
    ensures Encodable(Atoms(v))
    decreases v, 1
  {
    match v {
      case VStruct(fields) => FieldsEncodable(fields, s.fields);
      case VSlice(elems) => ElemsEncodable(elems, s.elem);
      case VMulti(ops, done) => OpsEncodable(ops);
      case _ =>
    }
  }

  lemma {:induction false} FieldsEncodable(vs: seq<Value>, ss: seq<Schema>)
    requires HaveSchemas(vs, ss)
    ensures Encodable(AtomsAll(vs))
    decreases vs, 0
  {
    if vs != [] {
      TypedIsEncodable(vs[0], ss[0]);
      FieldsEncodable(vs[1..], ss[1..]);
    }
  }

  lemma {:induction false} ElemsEncodable(vs: seq<Value>, s: Schema)
    requires AllTyped(vs, s)
    ensures Encodable(AtomsAll(vs))
    decreases vs, 0
  {
    if vs != [] {
      AllTypedTail(vs, s);
      TypedIsEncodable(vs[0], s);
      ElemsEncodable(vs[1..], s);
    }
  }

  lemma {:induction false} OpsEncodable(ops: seq<MultiOp>)
    requires forall op :: op in ops ==> OpTyped(op)
    ensures Encodable(AtomsOps(ops))
    decreases ops, 0
  {
    if ops != [] {
      OpEncodable(ops[0]);
      OpsEncodable(ops[1..]);
    }
  }

  lemma {:induction false} OpEncodable(op: MultiOp)
    requires OpTyped(op)
    ensures Encodable(AtomsOp(op))
    decreases op, 0
  {
    TypedIsEncodable(op.op, RequestSchema(op.header.opType).value);
  }

  // ----- where the fill ends

  /** The first part decides when it is cut, the second one when the first is whole. */
  lemma {:induction false} FillBoth(a: seq<Atom>, b: seq<Atom>, room: nat)
    requires Encodable(a)
    ensures |Flat(a)| <= room ==> Fill(a + b, room) == Fill(b, room - |Flat(a)|)
    ensures |Flat(a)| > room ==> Fill(a + b, room) == Fill(a, room) && !Fill(a, room).Done?
  {
    FillAppend(a, b, room);
    FillSucceeds(a, room);
  }

  lemma {:induction false} CutFill(atoms: seq<Atom>, b: seq<byte>, off: nat)
    requires Cut(b, off, Flat(atoms))
    ensures !Fill(atoms, |b| - off).Done?
  {
    FillSucceeds(atoms, |b| - off);
  }

  // ----- values

  /** A value cut short, wherever it stands in the buffer, ends the decode as it
      would end its encode. */
  lemma {:induction false} CutValue(v: Value, s: Schema, b: seq<byte>, off: nat)
    requires HasSchema(v, s) && SizesFit(v) && Cut(b, off, Serialize(v))
    ensures !Fill(Atoms(v), |b| - off).Done?
    ensures Decode(s, b, |b|, off) == Lost(AsLost(Fill(Atoms(v), |b| - off)))
    decreases v, 1
  {
    CutFill(Atoms(v), b, off);
    match v {
      case VStruct(fields) => CutFields(fields, s.fields, b, off);
      case VSlice(elems) => CutSlice(elems, s.elem, b, off);
      case VMulti(ops, done) => CutMulti(ops, done, b, off);
      case VString(text) => CutString(text, b, off);
      case VBytes(data) => CutBytes(data, b, off);
      case _ => CutSmall(v, s, b, off);
    }
  }

  lemma {:induction false} OneFails(a: Atom, room: int)
    requires !Fill([a], room).Done? && !a.Bad?
    ensures AsLost(Fill([a], room)) == if a.Flag? then Decoder.IndexPanic else Decoder.ShortBuffer
  {
    assert [a][1..] == [];
  }

  lemma {:induction false} CutString(text: seq<byte>, b: seq<byte>, off: nat)
    requires |text| < TWO32 && Cut(b, off, Serialize(VString(text))) && !Fill(Atoms(VString(text)), |b| - off).Done?
    ensures Decode(SString, b, |b|, off) == Lost(AsLost(Fill(Atoms(VString(text)), |b| - off)))
  {
    hide Fill, AsLost, Cut, Flat, Get32;
    CutBlob(Put32(|text|), text, b, off);
    OneFails(Fixed(Put32(|text|) + text), |b| - off);
  }

  lemma {:induction false} CutBytes(data: seq<byte>, b: seq<byte>, off: nat)
    requires |data| < 0x8000_0000 && Cut(b, off, Serialize(VBytes(data))) && !Fill(Atoms(VBytes(data)), |b| - off).Done?
    ensures Decode(SBytes, b, |b|, off) == Lost(AsLost(Fill(Atoms(VBytes(data)), |b| - off)))
  {
    hide Fill, AsLost, Cut, Flat, Get32;
    CutBlob(Put32(|data|), data, b, off);
    OneFails(Fixed(Put32(|data|) + data), |b| - off);
  }

  /** Values of a fixed size. */
  lemma {:induction false} CutSmall(v: Value, s: Schema, b: seq<byte>, off: nat)
    requires HasSchema(v, s) && Cut(b, off, Serialize(v)) && !Fill(Atoms(v), |b| - off).Done?
    requires v.VBool? || v.VInt32? || v.VInt64? || v.VNilBytes? || v.VNilSlice?
    ensures Decode(s, b, |b|, off) == Lost(AsLost(Fill(Atoms(v), |b| - off)))
  {
    hide Fill, AsLost;
    FlatOne(Atoms(v)[0]);
    assert Atoms(v) == [Atoms(v)[0]];
    assert |b| - off < |AtomBytes(Atoms(v)[0])|;
    OneFails(Atoms(v)[0], |b| - off);
  }

  lemma {:induction false} CutBlob(length: seq<byte>, data: seq<byte>, b: seq<byte>, off: nat)
    requires |data| < TWO32 && length == Put32(|data|) && Cut(b, off, Flat([Fixed(length + data)]))
    ensures off + 4 + |data| > |b|
    ensures off + 4 <= |b| ==> Get32(b[off..off + 4]) == |data| && (|data| < 0x8000_0000 ==> Int32At(b, off) == |data|)
  {
    FlatOne(Fixed(length + data));
    CutBoth(b, off, length, data);
    if off + 4 <= |b| {
      LengthAt(|data|, b, off);
    }
  }

  lemma {:induction false} CutFields(vs: seq<Value>, ss: seq<Schema>, b: seq<byte>, off: nat)
    requires HaveSchemas(vs, ss) && AllFit(vs) && Cut(b, off, SerializeAll(vs)) && !Fill(AtomsAll(vs), |b| - off).Done?
    ensures DecodeFields(ss, b, |b|, off) == Lost(AsLost(Fill(AtomsAll(vs), |b| - off)))
    decreases vs, 0
  {
    hide Decode, HasSchema, SizesFit, Normalize, AllFit, Holds, Cut, Atoms, Fill, AsLost;
    CutSome(vs, b, off);
    HaveSchemasTail(vs, ss);
    AllTail(vs);
    CutAll(vs, ss[0], b, off);
    if off + |Serialize(vs[0])| <= |b| {
      RoundTrip(vs[0], ss[0], b, |b|, off);
      CutFields(vs[1..], ss[1..], b, off + |Serialize(vs[0])|);
    } else {
      CutValue(vs[0], ss[0], b, off);
    }
  }

  /** Which of the values is cut, the first or a later one. */
  lemma {:induction false} CutAll(vs: seq<Value>, s: Schema, b: seq<byte>, off: nat)
    requires vs != [] && HasSchema(vs[0], s) && Cut(b, off, SerializeAll(vs))
    ensures if off + |Serialize(vs[0])| <= |b|
            then Holds(b, off, Serialize(vs[0])) && Cut(b, off + |Serialize(vs[0])|, SerializeAll(vs[1..])) &&
                 Fill(AtomsAll(vs), |b| - off) == Fill(AtomsAll(vs[1..]), |b| - off - |Serialize(vs[0])|)
            else Cut(b, off, Serialize(vs[0])) && Fill(AtomsAll(vs), |b| - off) == Fill(Atoms(vs[0]), |b| - off)
  {
    FlatAppend(Atoms(vs[0]), AtomsAll(vs[1..]));
    CutBoth(b, off, Serialize(vs[0]), SerializeAll(vs[1..]));
    TypedIsEncodable(vs[0], s);
    FillBoth(Atoms(vs[0]), AtomsAll(vs[1..]), |b| - off);
  }

  lemma {:induction false} CutSome(vs: seq<Value>, b: seq<byte>, off: nat)
    requires Cut(b, off, SerializeAll(vs))
    ensures vs != []
  {
  }

  lemma {:induction false} CutElems(vs: seq<Value>, s: Schema, b: seq<byte>, off: nat)
    requires AllTyped(vs, s) && AllFit(vs) && Cut(b, off, SerializeAll(vs)) && !Fill(AtomsAll(vs), |b| - off).Done?
    ensures DecodeElems(s, |vs|, b, |b|, off) == Lost(AsLost(Fill(AtomsAll(vs), |b| - off)))
    decreases vs, 0
  {
    hide Decode, HasSchema, SizesFit, Normalize, AllFit, AllTyped, Holds, Cut, Atoms, Fill, AsLost;
    CutSome(vs, b, off);
    AllTypedTail(vs, s);
    AllTail(vs);
    CutAll(vs, s, b, off);
    if off + |Serialize(vs[0])| <= |b| {
      RoundTrip(vs[0], s, b, |b|, off);
      CutElems(vs[1..], s, b, off + |Serialize(vs[0])|);
    } else {
      CutValue(vs[0], s, b, off);
    }
  }

  lemma {:induction false} CutSlice(elems: seq<Value>, elem: Schema, b: seq<byte>, off: nat)
    requires AllTyped(elems, elem) && AllFit(elems) && |elems| < TWO32
    requires Cut(b, off, Serialize(VSlice(elems))) && !Fill(Atoms(VSlice(elems)), |b| - off).Done?
    ensures Decode(SSlice(elem), b, |b|, off) == Lost(AsLost(Fill(Atoms(VSlice(elems)), |b| - off)))
    decreases elems, 1
  {
    hide AllTyped, AllFit, Normalize, DecodeElems;
    CutCount(elems, b, off);
    if off + 4 <= |b| {
      LengthAt(|elems|, b, off);
      CutElems(elems, elem, b, off + 4);
    }
  }

  lemma {:induction false} OneEncodable(a: Atom)
    requires !a.Bad?
    ensures Encodable([a])
  {
  }

  lemma {:induction false} CutCount(elems: seq<Value>, b: seq<byte>, off: nat)
    requires |elems| < TWO32 && Cut(b, off, Serialize(VSlice(elems)))
    ensures off + 4 <= |b| ==>
              && Holds(b, off, Put32(|elems|)) && Cut(b, off + 4, SerializeAll(elems))
              && Fill(Atoms(VSlice(elems)), |b| - off) == Fill(AtomsAll(elems), |b| - off - 4)
    ensures off + 4 > |b| ==> Fill(Atoms(VSlice(elems)), |b| - off) == Serializer.ShortBuffer
  {
    hide Cut, Holds, Flat, AtomsAll, Encodable;
    var count := Fixed(Put32(|elems|));
    FlatOne(count);
    OneEncodable(count);
    FlatAppend([count], AtomsAll(elems));
    CutBoth(b, off, Put32(|elems|), SerializeAll(elems));
    FillBoth([count], AtomsAll(elems), |b| - off);
  }

  // ----- multi packets

  lemma {:induction false} CutHeader(h: MultiHeader, done: bool, b: seq<byte>, off: nat)
    requires Cut(b, off, Flat(HeaderAtoms(h, done)))
    ensures !Fill(HeaderAtoms(h, done), |b| - off).Done?
    ensures DecodeHeader(b, |b|, off) == Lost(AsLost(Fill(HeaderAtoms(h, done), |b| - off)))
  {
    CutFill(HeaderAtoms(h, done), b, off);
    HeaderBytes(h, done);
    var atoms := HeaderAtoms(h, done);
    var room := |b| - off;
    assert atoms[1..] == [atoms[1], atoms[2]] && atoms[1..][1..] == [atoms[2]];
    assert room >= 4 ==> Fill(atoms, room) == Fill(atoms[1..], room - 4);
    assert room >= 5 ==> Fill(atoms[1..], room - 4) == Fill(atoms[1..][1..], room - 5);
  }

  lemma {:induction false} CutMulti(ops: seq<MultiOp>, done: MultiHeader, b: seq<byte>, off: nat)
    requires OpsGood(ops) && Cut(b, off, MultiBytes(ops, done))
    ensures var atoms := AtomsOps(ops) + HeaderAtoms(done, true);
            && !Fill(atoms, |b| - off).Done?
            && DecodeMulti(b, |b|, off) == Lost(AsLost(Fill(atoms, |b| - off)))
    decreases ops, 0
  {
    hide Decode, DecodeHeader, HasSchema, SizesFit, Normalize, Fill, AsLost, Holds, Cut, HeaderAtoms, Atoms, RequestSchema, OpsGood, OpTyped;
    if ops == [] {
      assert AtomsOps(ops) + HeaderAtoms(done, true) == HeaderAtoms(done, true);
      CutHeader(done, true, b, off);
    } else {
      OpsGoodTail(ops);
      CutOps(ops, done, b, off);
      HeaderBytes(ops[0].header, false);
      var next := off + HEADER_SIZE + |Serialize(ops[0].op)|;
      if |b| < off + HEADER_SIZE {
        CutHeader(ops[0].header, false, b, off);
      } else if |b| < next {
        CutFirst(ops[0], b, off);
      } else {
        MultiHead(ops[0], b, |b|, off);
        CutMulti(ops[1..], done, b, next);
      }
    }
  }

  /** A multi whose first operation is cut. */
  lemma {:induction false} CutFirst(op: MultiOp, b: seq<byte>, off: nat)
    requires OpTyped(op) && SizesFit(op.op)
    requires Holds(b, off, Flat(HeaderAtoms(op.header, false))) && off + HEADER_SIZE <= |b|
    requires Cut(b, off + HEADER_SIZE, Serialize(op.op))
    ensures !Fill(Atoms(op.op), |b| - off - HEADER_SIZE).Done?
    ensures DecodeMulti(b, |b|, off) == Lost(AsLost(Fill(Atoms(op.op), |b| - off - HEADER_SIZE)))
    decreases op, 1
  {
    hide Decode, DecodeHeader, DecodeMulti, HasSchema, SizesFit, Normalize, Fill, AsLost, Cut, Atoms, RequestSchema;
    HeaderBytes(op.header, false);
    RoundTripHeader(op.header, false, b, |b|, off);
    CutOp(op, b, off + HEADER_SIZE);
    OpBreaks(b, off, op.header.(done := false), AsLost(Fill(Atoms(op.op), |b| - off - HEADER_SIZE)));
  }

  lemma {:induction false} OpBreaks(b: seq<byte>, off: nat, h: MultiHeader, e: DecodeError)
    requires DecodeHeader(b, |b|, off) == Got(h, off + HEADER_SIZE) && !h.done && RequestSchema(h.opType).Some?
    requires Decode(RequestSchema(h.opType).value, b, |b|, off + HEADER_SIZE) == Lost(e)
    ensures DecodeMulti(b, |b|, off) == Lost(e)
  {
    hide Decode, DecodeHeader, RequestSchema;
  }

  lemma {:induction false} CutOp(op: MultiOp, b: seq<byte>, off: nat)
    requires OpTyped(op) && SizesFit(op.op) && Cut(b, off, Serialize(op.op))
    ensures RequestSchema(op.header.opType).Some? && !Fill(Atoms(op.op), |b| - off).Done?
    ensures Decode(RequestSchema(op.header.opType).value, b, |b|, off) == Lost(AsLost(Fill(Atoms(op.op), |b| - off)))
    decreases op, 0
  {
    CutValue(op.op, RequestSchema(op.header.opType).value, b, off);
  }

  /** Which part of a multi is cut: the first header, the first operation, or what
      follows. */
  lemma {:induction false} CutOps(ops: seq<MultiOp>, done: MultiHeader, b: seq<byte>, off: nat)
    requires ops != [] && OpTyped(ops[0]) && Cut(b, off, MultiBytes(ops, done))
    ensures var op, fill := ops[0], Fill(AtomsOps(ops) + HeaderAtoms(done, true), |b| - off);
            var body := off + HEADER_SIZE;
            var rest := body + |Serialize(op.op)|;
            if |b| < body then
              Cut(b, off, Flat(HeaderAtoms(op.header, false))) && fill == Fill(HeaderAtoms(op.header, false), |b| - off)
            else
              && Holds(b, off, Flat(HeaderAtoms(op.header, false)))
              && (if |b| < rest then
                    Cut(b, body, Serialize(op.op)) && fill == Fill(Atoms(op.op), |b| - body)
                  else
                    && Holds(b, body, Serialize(op.op)) && Cut(b, rest, MultiBytes(ops[1..], done))
                    && fill == Fill(AtomsOps(ops[1..]) + HeaderAtoms(done, true), |b| - rest))
  {
    hide HasSchema, Fill, RequestSchema, Cut, Holds, Flat, Atoms, HeaderAtoms;
    var op := ops[0];
    var head, body, rest := HeaderAtoms(op.header, false), Atoms(op.op), AtomsOps(ops[1..]) + HeaderAtoms(done, true);
    assert AtomsOps(ops) + HeaderAtoms(done, true) == head + (body + rest);
    FlatAppend(head, body + rest);
    FlatAppend(body, rest);
    HeaderBytes(op.header, false);
    CutBoth(b, off, Flat(head), Flat(body) + Flat(rest));
    HeaderEncodable(op.header, false);
    FillBoth(head, body + rest, |b| - off);
    if |b| >= off + HEADER_SIZE {
      CutBoth(b, off + HEADER_SIZE, Flat(body), Flat(rest));
      BodyEncodable(op);
      FillBoth(body, rest, |b| - off - HEADER_SIZE);
    }
  }

  lemma {:induction false} HeaderEncodable(h: MultiHeader, done: bool)
    ensures Encodable(HeaderAtoms(h, done))
  {
  }

  lemma {:induction false} BodyEncodable(op: MultiOp)
    requires OpTyped(op)
    ensures Encodable(Atoms(op.op))
  {
    TypedIsEncodable(op.op, RequestSchema(op.header.opType).value);
  }

  // ----- whole packets

  /** A strict prefix of an encoding, given as the whole buffer, fails like the
      encode of the value into a buffer of that size: with ErrShortBuffer, or with
      the panic of a bool that is the first part not to fit. */
  lemma {:induction false} PrefixFailsAlike(v: Value, s: Schema, k: nat)
    requires HasSchema(v, s) && SizesFit(v) && k < |Serialize(v)|
    ensures !Fill(Atoms(v), k).Done?
    ensures Decode(s, Serialize(v)[..k], k, 0) == Lost(AsLost(Fill(Atoms(v), k)))
  {
    var b := Serialize(v)[..k];
    assert b[0..] == b;
    CutValue(v, s, b, 0);
  }

  /** So decoding a prefix panics if and only if the first part of the value that
      does not fit is a bool, and otherwise reports ErrShortBuffer. */
  lemma {:induction false} PrefixPanicsExactly(v: Value, s: Schema, k: nat)
    requires HasSchema(v, s) && SizesFit(v) && k < |Serialize(v)|
    ensures Decode(s, Serialize(v)[..k], k, 0) == Lost(Decoder.IndexPanic) <==>
              exists i: nat :: FirstFailure(Atoms(v), k, i) && Atoms(v)[i].Flag?
    ensures Decode(s, Serialize(v)[..k], k, 0) != Lost(Decoder.IndexPanic) ==>
              Decode(s, Serialize(v)[..k], k, 0) == Lost(Decoder.ShortBuffer)
  {
    hide Decode, HasSchema, SizesFit;
    PrefixFailsAlike(v, s, k);
    TypedIsEncodable(v, s);
    var i := FillFailure(Atoms(v), k);
    forall j: nat | FirstFailure(Atoms(v), k, j) ensures j == i {
      FirstFailureUnique(Atoms(v), k, i, j);
    }
  }

  lemma {:induction false} FirstFailureUnique(atoms: seq<Atom>, room: nat, i: nat, j: nat)
    requires FirstFailure(atoms, room, i) && FirstFailure(atoms, room, j)
    ensures i == j
  {
    if i < j {
      NoFailureBefore(atoms, room, i, j);
    } else if j < i {
      NoFailureBefore(atoms, room, j, i);
    }
  }

  lemma {:induction false} NoFailureBefore(atoms: seq<Atom>, room: nat, i: nat, j: nat)
    requires i < j < |atoms| && Encodable(atoms[..j]) && |Flat(atoms[..j])| <= room
    ensures !FirstFailure(atoms, room, i)
  {
    assert atoms[..j] == atoms[..i] + ([atoms[i]] + atoms[i + 1..j]);
    FlatAppend(atoms[..i], [atoms[i]] + atoms[i + 1..j]);
    FlatAppend([atoms[i]], atoms[i + 1..j]);
    FlatOne(atoms[i]);
    assert atoms[..j][i] == atoms[i];
  }

  // ----- a buffer with stale bytes behind its length

  /** What a longer capacity lets through is exactly what would decode without it,
      as long as no byte behind the length was read. */
  lemma {:induction false} DecodeRestricts(s: Schema, b: seq<byte>, len: nat, off: nat)
    requires len <= |b| && Decode(s, b, len, off).Got? && Decode(s, b, len, off).next <= len
    ensures Decode(s, b[..len], len, off) == Decode(s, b, len, off)
    decreases Rest(b, off), s, 1
  {
    match s {
      case SStruct(fields) => FieldsRestrict(fields, b, len, off);
      case SSlice(elem) =>
        assert b[..len][off..off + 4] == b[off..off + 4];
        ElemsRestrict(elem, Get32(b[off..off + 4]), b, len, off + 4);
      case SMulti => MultiRestricts(b, len, off);
      case _ => LeafRestricts(s, b, len, off);
    }
  }

  lemma {:induction false} LeafRestricts(s: Schema, b: seq<byte>, len: nat, off: nat)
    requires len <= |b| && Decode(s, b, len, off).Got? && Decode(s, b, len, off).next <= len
    requires !s.SStruct? && !s.SSlice? && !s.SMulti?
    ensures Decode(s, b[..len], len, off) == Decode(s, b, len, off)
  {
    var n := Decode(s, b, len, off).next;
    assert forall i, j :: off <= i <= j <= n ==> b[..len][i..j] == b[i..j];
  }

  lemma {:induction false} FieldsRestrict(fields: seq<Schema>, b: seq<byte>, len: nat, off: nat)
    requires len <= |b| && off <= |b| && DecodeFields(fields, b, len, off).Got? && DecodeFields(fields, b, len, off).next <= len
    ensures off <= len && DecodeFields(fields, b[..len], len, off) == DecodeFields(fields, b, len, off)
    decreases Rest(b, off), fields, 0
  {
    if fields != [] {
      FieldsRestrict(fields[1..], b, len, Decode(fields[0], b, len, off).next);
      DecodeRestricts(fields[0], b, len, off);
    }
  }

  lemma {:induction false} ElemsRestrict(elem: Schema, count: nat, b: seq<byte>, len: nat, off: nat)
    requires len <= |b| && off <= |b|
    requires DecodeElems(elem, count, b, len, off).Got? && DecodeElems(elem, count, b, len, off).next <= len
    ensures off <= len && DecodeElems(elem, count, b[..len], len, off) == DecodeElems(elem, count, b, len, off)
    decreases Rest(b, off), elem, count + 2
  {
    if count > 0 {
      ElemsRestrict(elem, count - 1, b, len, Decode(elem, b, len, off).next);
      DecodeRestricts(elem, b, len, off);
    }
  }

  lemma {:induction false} MultiRestricts(b: seq<byte>, len: nat, off: nat)
    requires len <= |b| && DecodeMulti(b, len, off).Got? && DecodeMulti(b, len, off).next <= len
    ensures DecodeMulti(b[..len], len, off) == DecodeMulti(b, len, off)
    decreases Rest(b, off), SMulti, 0
  {
    var h := DecodeHeader(b, len, off);
    if !h.value.done {
      var s := RequestSchema(h.value.opType).value;
      MultiRestricts(b, len, Decode(s, b, len, h.next).next);
      DecodeRestricts(s, b, len, h.next);
    }
    HeaderRestricts(b, len, off);
  }

  lemma {:induction false} HeaderRestricts(b: seq<byte>, len: nat, off: nat)
    requires len <= |b| && DecodeHeader(b, len, off).Got? && DecodeHeader(b, len, off).next <= len
    ensures DecodeHeader(b[..len], len, off) == DecodeHeader(b, len, off)
  {
    assert b[..len][off..off + 4] == b[off..off + 4] && b[..len][off + 5..off + 9] == b[off + 5..off + 9];
  }

  /** A packet decodes from its own bytes alone if and only if it decodes in the
      larger buffer without reading behind its length; any other success of the
      larger buffer used stale bytes. */
  lemma {:induction false} OwnBytesExactly(s: Schema, b: seq<byte>, len: nat, off: nat)
    requires len <= |b|
    ensures Decode(s, b[..len], len, off).Got? <==> Decode(s, b, len, off).Got? && Decode(s, b, len, off).next <= len
    ensures Decode(s, b[..len], len, off).Got? ==> Decode(s, b[..len], len, off) == Decode(s, b, len, off)
  {
    hide Decode;
    if Decode(s, b[..len], len, off).Got? {
      DecodeExtends(s, b[..len], len, off, b, len);
    }
    if Decode(s, b, len, off).Got? && Decode(s, b, len, off).next <= len {
      DecodeRestricts(s, b, len, off);
    }
  }
}
