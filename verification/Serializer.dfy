/** The wire form of a value, as a specification independent of any buffer. */
module Serializer {
  import opened Bytes
  import opened Packets

  /** What the encoder writes in one go.  A flag is stored by indexing, everything
      else through a slice of the buffer; Bad is a value without an encoding. */
  datatype Atom = Fixed(bytes: seq<byte>) | Flag(on: bool) | Bad

  function AtomBytes(a: Atom): seq<byte>
  {
    match a
    case Fixed(bytes) => bytes
    case Flag(on) => [if on then 1 else 0]
    case Bad => []
  }

  function Flat(atoms: seq<Atom>): seq<byte>
  {
    if atoms == [] then [] else AtomBytes(atoms[0]) + Flat(atoms[1..])
  }

  /** uint32(n) for a Go length. */
  function Length32(n: nat): uint32 { n % TWO32 }

  function HeaderAtoms(h: MultiHeader, done: bool): seq<Atom>
  {
    [Fixed(Put32(Unsigned32(h.opType))), Flag(done), Fixed(Put32(Unsigned32(h.err)))]
  }

  function Atoms(v: Value): seq<Atom>
    decreases v
  {
    match v
    case VBool(flag) => [Flag(flag)]
    case VInt32(i) => [Fixed(Put32(Unsigned32(i)))]
    case VInt64(l) => [Fixed(Put64(Unsigned64(l)))]
    case VString(text) => [Fixed(Put32(Length32(|text|)) + text)]
    case VNilBytes => [Fixed(Put32(0xffff_ffff))]
    case VBytes(data) => [Fixed(Put32(Length32(|data|)) + data)]
    case VStruct(fields) => AtomsAll(fields)
    case VNilSlice => [Fixed(Put32(0))]
    case VSlice(elems) => [Fixed(Put32(Length32(|elems|)))] + AtomsAll(elems)
    case VMulti(ops, done) => AtomsOps(ops) + HeaderAtoms(done, true)
    case VUnhandled => [Bad]
  }

  function AtomsAll(vs: seq<Value>): seq<Atom>
    decreases vs
  {
    if vs == [] then [] else Atoms(vs[0]) + AtomsAll(vs[1..])
  }

  function AtomsOps(ops: seq<MultiOp>): seq<Atom>
    decreases ops
  {
    if ops == [] then [] else AtomsOp(ops[0]) + AtomsOps(ops[1..])
  }

  function AtomsOp(op: MultiOp): seq<Atom>
    decreases op
  {
    HeaderAtoms(op.header, false) + Atoms(op.op)
  }

  function Serialize(v: Value): seq<byte> { Flat(Atoms(v)) }

  function SerializeAll(vs: seq<Value>): seq<byte> { Flat(AtomsAll(vs)) }

  /** How an encode into `room` bytes ends.  The recover clause turns a slice out
      of range into ErrShortBuffer but lets an index out of range through. */
  datatype Outcome = Done | ShortBuffer | IndexPanic | UnhandledType

  function Fill(atoms: seq<Atom>, room: int): Outcome
    decreases atoms
  {
    if atoms == [] then Done
    else
      match atoms[0]
      case Bad => UnhandledType
      case Fixed(bytes) => if |bytes| > room then ShortBuffer else Fill(atoms[1..], room - |bytes|)
      case Flag(_) => if room < 1 then IndexPanic else Fill(atoms[1..], room - 1)
  }

  // ----- composition

  lemma {:induction false} FlatOne(a: Atom)
    ensures Flat([a]) == AtomBytes(a)
  {
  }

  lemma {:induction false} FlatAppend(a: seq<Atom>, b: seq<Atom>)
    ensures Flat(a + b) == Flat(a) + Flat(b)
  {
    hide AtomBytes;
    if a == [] {
      assert a + b == b;
    } else {
      FlatAppend(a[1..], b);
      assert (a + b)[0] == a[0] && (a + b)[1..] == a[1..] + b;
      var x, y, z := AtomBytes(a[0]), Flat(a[1..]), Flat(b);
      assert x + (y + z) == (x + y) + z;
    }
  }

  lemma {:induction false} FillAppend(a: seq<Atom>, b: seq<Atom>, room: int)
    ensures Fill(a + b, room) == if Fill(a, room).Done? then Fill(b, room - |Flat(a)|) else Fill(a, room)
  {
    if a == [] {
      assert a + b == b;
    } else {
      assert (a + b)[1..] == a[1..] + b;
      FillAppend(a[1..], b, room - |AtomBytes(a[0])|);
    }
  }

  lemma {:induction false} AtomsAllSnoc(vs: seq<Value>, v: Value)
    ensures AtomsAll(vs + [v]) == AtomsAll(vs) + Atoms(v)
  {
    if vs == [] {
      assert (vs + [v])[1..] == [];
    } else {
      assert (vs + [v])[1..] == vs[1..] + [v];
      AtomsAllSnoc(vs[1..], v);
    }
  }

  lemma {:induction false} AtomsOpsSnoc(ops: seq<MultiOp>, op: MultiOp)
    ensures AtomsOps(ops + [op]) == AtomsOps(ops) + AtomsOp(op)
  {
    if ops == [] {
      assert (ops + [op])[1..] == [];
    } else {
      assert (ops + [op])[1..] == ops[1..] + [op];
      AtomsOpsSnoc(ops[1..], op);
    }
  }

  // ----- when an encode succeeds, and what goes wrong otherwise

  predicate Encodable(atoms: seq<Atom>) { forall k :: 0 <= k < |atoms| ==> !atoms[k].Bad? }

  /** An encode succeeds exactly when every value has an encoding and the
      serialized bytes fit. */
  lemma {:induction false} FillSucceeds(atoms: seq<Atom>, room: int)
    requires room >= 0
    ensures Fill(atoms, room).Done? <==> Encodable(atoms) && |Flat(atoms)| <= room
  {
    if atoms != [] {
      var n := |AtomBytes(atoms[0])|;
      if !atoms[0].Bad? && n <= room {
        FillSucceeds(atoms[1..], room - n);
        assert Encodable(atoms) <==> Encodable(atoms[1..]);
      }
    }
  }

  /** Atom k is the first that is bad or does not fit. */
  ghost predicate FirstFailure(atoms: seq<Atom>, room: int, k: nat)
  {
    && k < |atoms|
    && Encodable(atoms[..k]) && |Flat(atoms[..k])| <= room
    && (atoms[k].Bad? || |Flat(atoms[..k])| + |AtomBytes(atoms[k])| > room)
  }

  function FailureOf(a: Atom): Outcome
  {
    match a
    case Fixed(_) => ShortBuffer
    case Flag(_) => IndexPanic
    case Bad => UnhandledType
  }

  /** A failed encode is decided by its first failing atom: ErrShortBuffer, unless
      that atom is a bool, which panics, or has no encoding at all. */
  lemma {:induction false} FillFailure(atoms: seq<Atom>, room: int) returns (k: nat)
    requires room >= 0 && !Fill(atoms, room).Done?
    ensures FirstFailure(atoms, room, k)
    ensures Fill(atoms, room) == FailureOf(atoms[k])
  {
    var n := |AtomBytes(atoms[0])|;
    if atoms[0].Bad? || n > room {
      k := 0;
    } else {
      var j := FillFailure(atoms[1..], room - n);
      k := j + 1;
      assert atoms[..k] == [atoms[0]] + atoms[1..][..j];
      assert atoms[..k][1..] == atoms[1..][..j];
    }
  }
}
