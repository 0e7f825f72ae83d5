/** Packet values and their types, as the reflection-driven codec of
    zk/structs.go sees them. */
module Packets {
  import opened Text
  import opened Bytes

  datatype Schema =
    | SBool
    | SInt32
    | SInt64
    | SString
    | SBytes                          // []byte
    | SStruct(fields: seq<Schema>)
    | SSlice(elem: Schema)            // any other slice
    | SMulti                          // multiRequest, which brings its own codec
    | SUnhandled                      // any kind the codec has no case for

  datatype MultiHeader = MultiHeader(opType: int32, done: bool, err: int32)

  datatype MultiOp = MultiOp(header: MultiHeader, op: Value)

  datatype Value =
    | VBool(flag: bool)
    | VInt32(i: int32)
    | VInt64(l: int64)
    | VString(text: seq<byte>)
    | VNilBytes
    | VBytes(data: seq<byte>)
    | VStruct(fields: seq<Value>)
    | VNilSlice
    | VSlice(elems: seq<Value>)
    | VMulti(ops: seq<MultiOp>, done: MultiHeader)
    | VUnhandled

  // Opcodes (zk/constants.go:14-36)
  const OP_ERROR: int32 := -1
  const OP_CREATE: int32 := 1
  const OP_DELETE: int32 := 2
  const OP_SET_DATA: int32 := 5
  const OP_CHECK: int32 := 13
  const OP_MULTI: int32 := 14

  const ACL := SStruct([SInt32, SString, SString])
  const PATH := SStruct([SString])
  const PATH_VERSION := SStruct([SString, SInt32])
  const PATH_WATCH := SStruct([SString, SBool])
  const STAT := SStruct([SInt64, SInt64, SInt64, SInt64, SInt32, SInt32, SInt32, SInt64, SInt32, SInt32, SInt64])
  const REQUEST_HEADER := SStruct([SInt32, SInt32])
  const SET_WATCHES := SStruct([SInt64, SSlice(SString), SSlice(SString), SSlice(SString)])

  /** requestStructForOp */
  function RequestSchema(op: int32): Option<Schema>
  {
    if op == -11 || op == 11 then Some(SStruct([]))                               // close, ping
    else if op == OP_CREATE then Some(SStruct([SString, SBytes, SSlice(ACL), SInt32]))
    else if op == OP_DELETE || op == OP_CHECK then Some(PATH_VERSION)
    else if op == 3 || op == 4 || op == 12 then Some(PATH_WATCH)                  // exists, getData, getChildren2
    else if op == 6 || op == 8 || op == 9 then Some(PATH)                         // getAcl, getChildren, sync
    else if op == 7 then Some(SStruct([SString, SSlice(ACL), SInt32]))            // setAcl
    else if op == OP_SET_DATA then Some(SStruct([SString, SBytes, SInt32]))
    else if op == 101 then Some(SET_WATCHES)
    else if op == 100 then Some(SStruct([SInt32, SString, SBytes]))               // setAuth
    else if op == OP_MULTI then Some(SMulti)
    else if op == 16 then Some(SStruct([SBytes, SBytes, SBytes, SInt64]))         // reconfig
    else None
  }

  /** The value is of the type, and inside a multi every operation is of the type
      its header announces. */
  predicate HasSchema(v: Value, s: Schema)
    decreases v, 1
  {
    match v
    case VBool(_) => s.SBool?
    case VInt32(_) => s.SInt32?
    case VInt64(_) => s.SInt64?
    case VString(_) => s.SString?
    case VNilBytes => s.SBytes?
    case VBytes(_) => s.SBytes?
    case VStruct(fields) => s.SStruct? && HaveSchemas(fields, s.fields)
    case VNilSlice => s.SSlice?
    case VSlice(elems) => s.SSlice? && forall e :: e in elems ==> HasSchema(e, s.elem)
    case VMulti(ops, _) => s.SMulti? && forall op :: op in ops ==> OpTyped(op)
    case VUnhandled => false
  }

  predicate HaveSchemas(vs: seq<Value>, ss: seq<Schema>)
    decreases vs, 0
  {
    |vs| == |ss| && forall k :: 0 <= k < |vs| ==> HasSchema(vs[k], ss[k])
  }

  predicate OpTyped(op: MultiOp)
    decreases op, 0
  {
    RequestSchema(op.header.opType).Some? && HasSchema(op.op, RequestSchema(op.header.opType).value)
  }

  /** Every length fits the field that carries it: a byte slice must stay below
      2^31, because a negative length means nil. */
  predicate SizesFit(v: Value)
    decreases v
  {
    match v
    case VString(text) => |text| < TWO32
    case VBytes(data) => |data| < 0x8000_0000
    case VStruct(fields) => forall f :: f in fields ==> SizesFit(f)
    case VSlice(elems) => |elems| < TWO32 && forall e :: e in elems ==> SizesFit(e)
    case VMulti(ops, _) => forall op :: op in ops ==> SizesFit(op.op)
    case _ => true
  }

  /** What the codec does not tell apart: a nil slice is an empty one, and Encode
      overwrites the done flags of a multi. */
  function Normalize(v: Value): Value
    decreases v
  {
    match v
    case VStruct(fields) => VStruct(NormalizeAll(fields))
    case VNilSlice => VSlice([])
    case VSlice(elems) => VSlice(NormalizeAll(elems))
    case VMulti(ops, done) => VMulti(NormalizeOps(ops), done.(done := true))
    case _ => v
  }

  function NormalizeAll(vs: seq<Value>): (r: seq<Value>)
    ensures |r| == |vs|
    decreases vs
  {
    if vs == [] then [] else [Normalize(vs[0])] + NormalizeAll(vs[1..])
  }

  function NormalizeOps(ops: seq<MultiOp>): (r: seq<MultiOp>)
    ensures |r| == |ops|
    decreases ops
  {
    if ops == [] then []
    else [NormalizeOp(ops[0])] + NormalizeOps(ops[1..])
  }

  function NormalizeOp(op: MultiOp): MultiOp
    decreases op
  {
    MultiOp(op.header.(done := false), Normalize(op.op))
  }
}
