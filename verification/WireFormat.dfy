/** The bytes on the wire, read independently of the functions that write them
    (encoding/binary, zk/structs.go:93-290, 514-584). */
module WireFormat {
  import opened Text
  import opened Bytes
  import opened Packets
  import opened Serializer
  import opened Decoder
  import opened CodecTheorems

  // ----- integers

  /** Most significant byte first. */
  function BigEndian(s: seq<byte>): nat
  {
    if s == [] then 0 else 256 * BigEndian(s[..|s| - 1]) + Last(s)
  }

  lemma {:induction false} BigEndianFour(a: byte, b: byte, c: byte, d: byte)
    ensures BigEndian([a, b, c, d]) == 0x100_0000 * a + 0x1_0000 * b + 0x100 * c + d
  {
    assert [a, b, c, d][..3] == [a, b, c] && [a, b, c][..2] == [a, b] && [a, b][..1] == [a] && [a][..0] == [];
    assert BigEndian([]) == 0 && BigEndian([a]) == a && BigEndian([a, b]) == 256 * a + b;
    assert BigEndian([a, b, c]) == 256 * BigEndian([a, b]) + c;
  }

  lemma {:induction false} BigEndianConcat(s: seq<byte>, a: byte, b: byte, c: byte, d: byte)
    ensures BigEndian(s + [a, b, c, d]) == 0x1_0000_0000 * BigEndian(s) + BigEndian([a, b, c, d])
  {
    var all := s + [a, b, c, d];
    assert all[..|s| + 3] == s + [a, b, c] && (s + [a, b, c])[..|s| + 2] == s + [a, b];
    assert (s + [a, b])[..|s| + 1] == s + [a] && (s + [a])[..|s|] == s;
    assert BigEndian(s + [a]) == 256 * BigEndian(s) + a;
    assert BigEndian(s + [a, b]) == 256 * BigEndian(s + [a]) + b;
    assert BigEndian(s + [a, b, c]) == 256 * BigEndian(s + [a, b]) + c;
    BigEndianFour(a, b, c, d);
  }

  lemma {:induction false} Get32Reads(s: seq<byte>)
    requires |s| == 4
    ensures Get32(s) == BigEndian(s)
  {
    assert s == [s[0], s[1], s[2], s[3]];
    BigEndianFour(s[0], s[1], s[2], s[3]);
  }

  lemma {:induction false} Put32Reads(n: uint32)
    ensures |Put32(n)| == 4 && BigEndian(Put32(n)) == n
  {
    GetPut32(n);
    Get32Reads(Put32(n));
  }

  lemma {:induction false} Get64Reads(s: seq<byte>)
    requires |s| == 8
    ensures Get64(s) == BigEndian(s)
  {
    var hi, lo := s[..4], s[4..];
    assert lo == [lo[0], lo[1], lo[2], lo[3]] && s == hi + lo;
    Get32Reads(hi);
    Get32Reads(lo);
    BigEndianConcat(hi, lo[0], lo[1], lo[2], lo[3]);
  }

  lemma {:induction false} Put64Reads(n: int)
    requires 0 <= n < TWO64
    ensures |Put64(n)| == 8 && BigEndian(Put64(n)) == n
  {
    GetPut64(n);
    Get64Reads(Put64(n));
  }

  /** So many bytes have only one reading: the bytes are exactly these. */
  lemma {:induction false} BigEndianInjective(s: seq<byte>, t: seq<byte>)
    requires |s| == |t| && BigEndian(s) == BigEndian(t)
    ensures s == t
  {
    if s != [] {
      BigEndianInjective(s[..|s| - 1], t[..|t| - 1]);
      assert s == s[..|s| - 1] + [Last(s)] && t == t[..|t| - 1] + [Last(t)];
    }
  }

  /** The four bytes of a number, by their reading. */
  predicate Is32(s: seq<byte>, n: int)
  {
    |s| == 4 && BigEndian(s) == n
  }

  // ----- values

  /** The exact bytes of every value that is not made of others. */
  lemma {:induction false} LeafBytes(flag: bool, i: int32, l: int64)
    ensures Serialize(VBool(flag)) == [if flag then 1 else 0]
    ensures Is32(Serialize(VInt32(i)), if i < 0 then i + 0x1_0000_0000 else i)
    ensures |Serialize(VInt64(l))| == 8
    ensures BigEndian(Serialize(VInt64(l))) == if l < 0 then l + 0x1_0000_0000_0000_0000 else l
    ensures Serialize(VNilBytes) == [0xff, 0xff, 0xff, 0xff]
    ensures Serialize(VNilSlice) == [0, 0, 0, 0]
  {
    FlatOne(Flag(flag));
    FlatOne(Fixed(Put32(Unsigned32(i))));
    FlatOne(Fixed(Put64(Unsigned64(l))));
    FlatOne(Fixed(Put32(0xffff_ffff)));
    FlatOne(Fixed(Put32(0)));
    Put32Reads(Unsigned32(i));
    Put64Reads(Unsigned64(l));
  }

  /** A string or a byte slice is its length in four bytes and then itself. */
  lemma {:induction false} BlobWire(data: seq<byte>)
    requires |data| < 0x1_0000_0000
    ensures Is32(Serialize(VString(data))[..4], |data|) && Serialize(VString(data))[4..] == data
    ensures Is32(Serialize(VBytes(data))[..4], |data|) && Serialize(VBytes(data))[4..] == data
  {
    StringBytes(data);
    DataBytes(data);
    Put32Reads(|data|);
    var s := Put32(|data|) + data;
    assert s[..4] == Put32(|data|) && s[4..] == data;
  }

  /** A struct is its fields, one after the other. */
  lemma {:induction false} StructWire(first: Value, rest: seq<Value>)
    ensures Serialize(VStruct([])) == []
    ensures Serialize(VStruct([first] + rest)) == Serialize(first) + Serialize(VStruct(rest))
  {
    hide Flat, Atoms;
    EmptyStruct();
    var all := [first] + rest;
    assert all[0] == first && all[1..] == rest;
    assert AtomsAll(all) == Atoms(first) + AtomsAll(rest);
    StructIs(all);
    StructIs(rest);
    FlatAppend(Atoms(first), AtomsAll(rest));
  }

  lemma {:induction false} EmptyStruct()
    ensures Serialize(VStruct([])) == []
  {
  }

  lemma {:induction false} StructIs(vs: seq<Value>)
    ensures Atoms(VStruct(vs)) == AtomsAll(vs)
  {
  }

  /** A slice is its count in four bytes and then its elements. */
  lemma {:induction false} SliceWire(elems: seq<Value>)
    requires |elems| < 0x1_0000_0000
    ensures Is32(Serialize(VSlice(elems))[..4], |elems|)
    ensures Serialize(VSlice(elems))[4..] == Serialize(VStruct(elems))
  {
    hide Flat, AtomsAll, BigEndian;
    var count := Fixed(Put32(|elems|));
    FlatOne(count);
    FlatAppend([count], AtomsAll(elems));
    Put32Reads(|elems|);
    StructIs(elems);
    var s := Put32(|elems|) + SerializeAll(elems);
    assert s[..4] == Put32(|elems|) && s[4..] == SerializeAll(elems);
  }

  /** Nine bytes: the type, the done flag and the error. */
  predicate IsHeader(s: seq<byte>, opType: int32, done: bool, err: int32)
  {
    && |s| == 9
    && Is32(s[..4], if opType < 0 then opType + 0x1_0000_0000 else opType)
    && s[4] == (if done then 1 else 0)
    && Is32(s[5..], if err < 0 then err + 0x1_0000_0000 else err)
  }

  lemma {:induction false} HeaderWire(h: MultiHeader, done: bool)
    ensures IsHeader(Flat(HeaderAtoms(h, done)), h.opType, done, h.err)
  {
    HeaderBytes(h, done);
    Put32Reads(Unsigned32(h.opType));
    Put32Reads(Unsigned32(h.err));
    var flag: seq<byte> := [if done then 1 else 0];
    var s := Put32(Unsigned32(h.opType)) + (flag + Put32(Unsigned32(h.err)));
    assert s[..4] == Put32(Unsigned32(h.opType)) && s[4] == flag[0] && s[5..] == Put32(Unsigned32(h.err));
  }

  /** A multi without operations is its closing header with the done flag set. */
  lemma {:induction false} EmptyMultiWire(done: MultiHeader)
    ensures IsHeader(Serialize(VMulti([], done)), done.opType, true, done.err)
  {
    assert AtomsOps([]) + HeaderAtoms(done, true) == HeaderAtoms(done, true);
    HeaderWire(done, true);
  }

  /** Any other one begins with the header of its first operation, the done flag
      cleared, and that operation. */
  lemma {:induction false} MultiWire(op: MultiOp, ops: seq<MultiOp>, done: MultiHeader)
    ensures var s, body := Serialize(VMulti([op] + ops, done)), Serialize(op.op);
            && |s| >= 9 + |body|
            && IsHeader(s[..9], op.header.opType, false, op.header.err)
            && s[9..9 + |body|] == body
            && s[9 + |body|..] == Serialize(VMulti(ops, done))
  {
    var head, body, rest := HeaderAtoms(op.header, false), Atoms(op.op), AtomsOps(ops) + HeaderAtoms(done, true);
    assert ([op] + ops)[1..] == ops;
    assert AtomsOps([op] + ops) + HeaderAtoms(done, true) == head + (body + rest);
    FlatAppend(head, body + rest);
    FlatAppend(body, rest);
    HeaderWire(op.header, false);
    ThreeParts(Flat(head), Flat(body), Flat(rest));
  }

  lemma {:induction false} ThreeParts(a: seq<byte>, b: seq<byte>, c: seq<byte>)
    ensures var s := a + (b + c); s[..|a|] == a && s[|a|..|a| + |b|] == b && s[|a| + |b|..] == c
  {
  }

  // ----- what is read back

  /** Any negative length is nil, and any byte but 0 is true. */
  lemma {:induction false} LooseReadings(b: seq<byte>, off: nat)
    ensures off < |b| ==> Decode(SBool, b, |b|, off) == Got(VBool(b[off] != 0), off + 1)
    ensures off + 4 <= |b| && b[off] >= 0x80 ==> Decode(SBytes, b, |b|, off) == Got(VNilBytes, off + 4)
  {
    if off + 4 <= |b| {
      var s := b[off..off + 4];
      Get32Reads(s);
      assert s == [s[0], s[1], s[2], s[3]];
      BigEndianFour(s[0], s[1], s[2], s[3]);
    }
  }

  /** What decoding leaves different: nil slices other than byte slices, and done
      flags that Encode would not have written. */
  predicate Canonical(v: Value)
    decreases v
  {
    match v
    case VStruct(fields) => forall f :: f in fields ==> Canonical(f)
    case VNilSlice => false
    case VSlice(elems) => forall e :: e in elems ==> Canonical(e)
    case VMulti(ops, done) => done.done && forall op :: op in ops ==> !op.header.done && Canonical(op.op)
    case _ => true
  }

  lemma {:induction false} NormalizeKeeps(v: Value)
    ensures Canonical(v) ==> Normalize(v) == v
    ensures Normalize(VNilSlice) == VSlice([])
    decreases v, 1
  {
    if Canonical(v) {
      match v {
        case VStruct(fields) => NormalizeKeepsAll(fields);
        case VSlice(elems) => NormalizeKeepsAll(elems);
        case VMulti(ops, done) => NormalizeKeepsOps(ops);
        case _ =>
      }
    }
  }

  lemma {:induction false} NormalizeKeepsAll(vs: seq<Value>)
    requires forall v :: v in vs ==> Canonical(v)
    ensures NormalizeAll(vs) == vs
    decreases vs, 0
  {
    if vs != [] {
      NormalizeKeeps(vs[0]);
      NormalizeKeepsAll(vs[1..]);
      assert vs == [vs[0]] + vs[1..];
    }
  }

  lemma {:induction false} NormalizeKeepsOps(ops: seq<MultiOp>)
    requires forall op :: op in ops ==> !op.header.done && Canonical(op.op)
    ensures NormalizeOps(ops) == ops
    decreases ops, 0
  {
    if ops != [] {
      NormalizeKeepsOp(ops[0]);
      NormalizeKeepsOps(ops[1..]);
      assert ops == [ops[0]] + ops[1..];
    }
  }

  lemma {:induction false} NormalizeKeepsOp(op: MultiOp)
    requires !op.header.done && Canonical(op.op)
    ensures NormalizeOp(op) == op
    decreases op, 0
  {
    NormalizeKeeps(op.op);
  }

  // ----- the structs of the protocol

  /** Where field k of a struct starts. */
  function Offset(vs: seq<Value>, k: nat): nat
    requires k <= |vs|
  {
    if k == 0 then 0 else |Serialize(vs[0])| + Offset(vs[1..], k - 1)
  }

  /** Field k stands at its offset, and the last offset is the size. */
  lemma {:induction false} FieldAt(vs: seq<Value>, k: nat)
    requires k <= |vs|
    ensures Offset(vs, k) <= |Serialize(VStruct(vs))|
    ensures k < |vs| ==>
              var from, size := Offset(vs, k), |Serialize(vs[k])|;
              from + size <= |Serialize(VStruct(vs))| && Serialize(VStruct(vs))[from..from + size] == Serialize(vs[k])
    ensures k == |vs| ==> Offset(vs, k) == |Serialize(VStruct(vs))|
  {
    hide Serialize;
    if vs == [] {
      EmptyStruct();
    } else {
      var rest := vs[1..];
      assert vs == [vs[0]] + rest;
      StructWire(vs[0], rest);
      if k > 0 {
        FieldAt(rest, k - 1);
        if k < |vs| {
          Shifted(Serialize(vs[0]), Serialize(VStruct(rest)), Offset(rest, k - 1), |Serialize(vs[k])|);
        }
      }
    }
  }

  lemma {:induction false} Shifted(a: seq<byte>, b: seq<byte>, from: nat, size: nat)
    requires from + size <= |b|
    ensures (a + b)[|a| + from..|a| + from + size] == b[from..from + size]
  {
  }

  lemma {:induction false} OffsetStep(vs: seq<Value>, k: nat)
    requires k < |vs|
    ensures Offset(vs, k + 1) == Offset(vs, k) + |Serialize(vs[k])|
  {
    hide Serialize;
    if k > 0 {
      OffsetStep(vs[1..], k - 1);
    }
  }

  /** A request header is the id and the opcode, four bytes each. */
  lemma {:induction false} HeaderLayout(xid: int32, opcode: int32)
    requires xid >= 0 && opcode >= 0
    ensures var s := Serialize(VStruct([VInt32(xid), VInt32(opcode)]));
            |s| == 8 && BigEndian(s[..4]) == xid && BigEndian(s[4..]) == opcode
  {
    hide Serialize, BigEndian;
    var vs := [VInt32(xid), VInt32(opcode)];
    LeafBytes(false, xid, 0);
    LeafBytes(false, opcode, 0);
    FieldAt(vs, 0);
    OffsetStep(vs, 0);
    FieldAt(vs, 1);
    OffsetStep(vs, 1);
    FieldAt(vs, 2);
    var s := Serialize(VStruct(vs));
    assert s[0..4] == s[..4] && s[4..8] == s[4..];
  }

  /** The header with id 1 and opcode 4. */
  lemma {:induction false} HeaderExample()
    ensures Serialize(VStruct([VInt32(1), VInt32(4)])) == [0, 0, 0, 1, 0, 0, 0, 4]
  {
    hide Serialize, BigEndian;
    HeaderLayout(1, 4);
    var s := Serialize(VStruct([VInt32(1), VInt32(4)]));
    BigEndianFour(0, 0, 0, 1);
    BigEndianFour(0, 0, 0, 4);
    BigEndianInjective(s[..4], [0, 0, 0, 1]);
    BigEndianInjective(s[4..], [0, 0, 0, 4]);
    assert s == s[..4] + s[4..];
  }

  /** A Stat: eleven numbers at these offsets, 68 bytes in all. */
  lemma {:induction false} StatLayout(czxid: int64, mzxid: int64, ctime: int64, mtime: int64, version: int32, cversion: int32,
                                      aversion: int32, owner: int64, length: int32, children: int32, pzxid: int64)
    ensures var vs := [VInt64(czxid), VInt64(mzxid), VInt64(ctime), VInt64(mtime), VInt32(version), VInt32(cversion),
                       VInt32(aversion), VInt64(owner), VInt32(length), VInt32(children), VInt64(pzxid)];
            && HasSchema(VStruct(vs), STAT) && |Serialize(VStruct(vs))| == 68
            && Offset(vs, 1) == 8 && Offset(vs, 2) == 16 && Offset(vs, 3) == 24 && Offset(vs, 4) == 32
            && Offset(vs, 5) == 36 && Offset(vs, 6) == 40 && Offset(vs, 7) == 44 && Offset(vs, 8) == 52
            && Offset(vs, 9) == 56 && Offset(vs, 10) == 60
  {
    hide Serialize, Offset, HasSchema;
    var vs := [VInt64(czxid), VInt64(mzxid), VInt64(ctime), VInt64(mtime), VInt32(version), VInt32(cversion),
               VInt32(aversion), VInt64(owner), VInt32(length), VInt32(children), VInt64(pzxid)];
    LeavesTyped();
    StructTyped(vs, [SInt64, SInt64, SInt64, SInt64, SInt32, SInt32, SInt32, SInt64, SInt32, SInt32, SInt64]);
    OffsetZero(vs);
    forall k | 0 <= k < 11 ensures Offset(vs, k + 1) == Offset(vs, k) + (if vs[k].VInt64? then 8 else 4) {
      OffsetStep(vs, k);
      NumberSize(vs[k]);
    }
    assert Offset(vs, 1) == 8 && Offset(vs, 2) == 16 && Offset(vs, 3) == 24 && Offset(vs, 4) == 32;
    assert Offset(vs, 5) == 36 && Offset(vs, 6) == 40 && Offset(vs, 7) == 44 && Offset(vs, 8) == 52;
    assert Offset(vs, 9) == 56 && Offset(vs, 10) == 60 && Offset(vs, 11) == 68;
    FieldAt(vs, 11);
  }

  lemma {:induction false} OffsetZero(vs: seq<Value>)
    ensures Offset(vs, 0) == 0
  {
  }

  lemma {:induction false} NumberSize(v: Value)
    requires v.VInt32? || v.VInt64?
    ensures |Serialize(v)| == if v.VInt64? then 8 else 4
  {
    match v {
      case VInt32(i) => LeafBytes(false, i, 0);
      case VInt64(l) => LeafBytes(false, 0, l);
    }
  }

  /** These fields make a request of this opcode. */
  predicate IsRequest(opcode: int32, fields: seq<Value>)
  {
    RequestSchema(opcode).Some? && HasSchema(VStruct(fields), RequestSchema(opcode).value)
  }

  function AclEntry(perms: int32, scheme: seq<byte>, id: seq<byte>): Value
  {
    VStruct([VInt32(perms), VString(scheme), VString(id)])
  }

  /** Requests that carry access control lists. */
  lemma {:induction false} AclRequests(path: seq<byte>, data: seq<byte>, acls: seq<Value>, n: int32)
    requires forall a :: a in acls ==> exists p, s, i :: a == AclEntry(p, s, i)
    ensures IsRequest(1, [VString(path), VBytes(data), VSlice(acls), VInt32(n)])     // create: flags last
    ensures IsRequest(7, [VString(path), VSlice(acls), VInt32(n)])                   // setAcl
  {
    hide HasSchema;
    LeavesTyped();
    forall a | a in acls ensures HasSchema(a, ACL) {
      var p, s, i :| a == AclEntry(p, s, i);
      StructTyped([VInt32(p), VString(s), VString(i)], [SInt32, SString, SString]);
    }
    SliceTyped(acls, ACL);
    StructTyped([VString(path), VBytes(data), VSlice(acls), VInt32(n)], [SString, SBytes, SSlice(ACL), SInt32]);
    StructTyped([VString(path), VSlice(acls), VInt32(n)], [SString, SSlice(ACL), SInt32]);
  }

  /** Requests about one path. */
  lemma {:induction false} PathRequests(path: seq<byte>, data: seq<byte>, flag: bool, n: int32)
    ensures IsRequest(2, [VString(path), VInt32(n)]) && IsRequest(13, [VString(path), VInt32(n)])   // delete, check
    ensures IsRequest(3, [VString(path), VBool(flag)]) && IsRequest(4, [VString(path), VBool(flag)]) // exists, getData
    ensures IsRequest(12, [VString(path), VBool(flag)])                                              // getChildren2
    ensures IsRequest(5, [VString(path), VBytes(data), VInt32(n)])                                   // setData
    ensures IsRequest(6, [VString(path)]) && IsRequest(8, [VString(path)]) && IsRequest(9, [VString(path)])
  {
    hide HasSchema;
    LeavesTyped();
    StructTyped([VString(path), VInt32(n)], [SString, SInt32]);
    StructTyped([VString(path), VBool(flag)], [SString, SBool]);
    StructTyped([VString(path), VBytes(data), VInt32(n)], [SString, SBytes, SInt32]);
    StructTyped([VString(path)], [SString]);
  }

  /** Requests about the session. */
  lemma {:induction false} SessionRequests(a: seq<byte>, b: seq<byte>, c: seq<byte>, n: int32, zxid: int64, paths: seq<Value>)
    requires forall p :: p in paths ==> p.VString?
    ensures IsRequest(16, [VBytes(a), VBytes(b), VBytes(c), VInt64(zxid)])          // reconfig
    ensures IsRequest(100, [VInt32(n), VString(a), VBytes(b)])                      // setAuth
    ensures IsRequest(101, [VInt64(zxid), VSlice(paths), VSlice(paths), VSlice(paths)])
    ensures IsRequest(11, []) && IsRequest(-11, []) && RequestSchema(14) == Some(SMulti)
  {
    hide HasSchema;
    LeavesTyped();
    SliceTyped(paths, SString);
    StructTyped([VBytes(a), VBytes(b), VBytes(c), VInt64(zxid)], [SBytes, SBytes, SBytes, SInt64]);
    StructTyped([VInt32(n), VString(a), VBytes(b)], [SInt32, SString, SBytes]);
    StructTyped([VInt64(zxid), VSlice(paths), VSlice(paths), VSlice(paths)], [SInt64, SSlice(SString), SSlice(SString), SSlice(SString)]);
    StructTyped([], []);
  }

  lemma {:induction false} StructTyped(fields: seq<Value>, ss: seq<Schema>)
    requires |fields| == |ss| && forall k :: 0 <= k < |fields| ==> HasSchema(fields[k], ss[k])
    ensures HasSchema(VStruct(fields), SStruct(ss))
  {
  }

  lemma {:induction false} SliceTyped(elems: seq<Value>, s: Schema)
    requires forall e :: e in elems ==> HasSchema(e, s)
    ensures HasSchema(VSlice(elems), SSlice(s))
  {
  }

  lemma {:induction false} LeavesTyped()
    ensures forall v: Value :: v.VBool? ==> HasSchema(v, SBool)
    ensures forall v: Value :: v.VInt32? ==> HasSchema(v, SInt32)
    ensures forall v: Value :: v.VInt64? ==> HasSchema(v, SInt64)
    ensures forall v: Value :: v.VString? ==> HasSchema(v, SString)
    ensures forall v: Value :: v.VBytes? ==> HasSchema(v, SBytes)
  {
  }

  /** No other opcode has a request. */
  lemma {:induction false} OtherOpcodes(op: int32)
    ensures RequestSchema(op).Some? <==>
              op == -11 || 1 <= op <= 9 || 11 <= op <= 14 || op == 16 || op == 100 || op == 101
  {
  }
}
