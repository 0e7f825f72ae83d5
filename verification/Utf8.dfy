/** UTF-8 as Go's unicode/utf8 decodes it, against the encoder of section 3 of
    RFC 3629. */
module Utf8 {
  import opened Bytes

  const RUNE_ERROR := 0xfffd

  /** Unicode scalar values. */
  predicate IsScalar(c: int) { 0 <= c < 0xd800 || 0xe000 <= c < 0x11_0000 }

  function Trail(x: int): byte { 0x80 + x % 0x40 }

  /** The one encoding of a scalar value (RFC 3629, section 3). */
  function Encode(c: int): (s: seq<byte>)
    requires IsScalar(c)
    ensures 1 <= |s| <= 4
  {
    var c1, c2, c3 := c / 0x40, c / 0x40 / 0x40, c / 0x40 / 0x40 / 0x40;    // c without its low 6, 12, 18 bits
    if c < 0x80 then [c]
    else if c < 0x800 then [0xc0 + c1, Trail(c)]
    else if c < 0x1_0000 then [0xe0 + c2, Trail(c1), Trail(c)]
    else [0xf0 + c3, Trail(c2), Trail(c1), Trail(c)]
  }

  function EncodeAll(cs: seq<int>): seq<byte>
    requires forall k :: 0 <= k < |cs| ==> IsScalar(cs[k])
  {
    if cs == [] then [] else Encode(cs[0]) + EncodeAll(cs[1..])
  }

  predicate InRange(x: byte, lo: byte, hi: byte) { lo <= x <= hi }

  /** The length a first byte announces; 0 when it cannot start a sequence. */
  function Announced(x: byte): nat
  {
    if x < 0x80 then 1
    else if x < 0xc2 then 0
    else if x < 0xe0 then 2
    else if x < 0xf0 then 3
    else if x < 0xf5 then 4
    else 0
  }

  /** The second bytes acceptable after a first byte. */
  predicate Accepts(first: byte, second: byte)
  {
    if first == 0xe0 then InRange(second, 0xa0, 0xbf)
    else if first == 0xed then InRange(second, 0x80, 0x9f)
    else if first == 0xf0 then InRange(second, 0x90, 0xbf)
    else if first == 0xf4 then InRange(second, 0x80, 0x8f)
    else InRange(second, 0x80, 0xbf)
  }

  predicate IsTrail(x: byte) { InRange(x, 0x80, 0xbf) }

  /** utf8.DecodeRuneInString: the rune and its width.  Masking off the marker bits
      of an accepted byte is a subtraction. */
  function Decode(s: seq<byte>): (r: (int, nat))
    ensures r.1 <= |s| && (s != [] ==> r.1 >= 1)
  {
    if s == [] then (RUNE_ERROR, 0)
    else
      var first: int := s[0];
      var n := Announced(s[0]);
      if n == 1 then (first, 1)
      else if n == 0 || |s| < n || !Accepts(s[0], s[1]) then (RUNE_ERROR, 1)
      else
        var b1: int := s[1];
        if n == 2 then ((first - 0xc0) * 0x40 + (b1 - 0x80), 2)
        else if !IsTrail(s[2]) then (RUNE_ERROR, 1)
        else
          var b2: int := s[2];
          if n == 3 then ((first - 0xe0) * 0x1000 + (b1 - 0x80) * 0x40 + (b2 - 0x80), 3)
          else if !IsTrail(s[3]) then (RUNE_ERROR, 1)
          else
            var b3: int := s[3];
            ((first - 0xf0) * 0x4_0000 + (b1 - 0x80) * 0x1000 + (b2 - 0x80) * 0x40 + (b3 - 0x80), 4)
  }

  /** The sequence at the start of s is malformed (or s is empty). */
  predicate Malformed(s: seq<byte>)
  {
    Decode(s) == (RUNE_ERROR, 1) || s == []
  }

  predicate RuneStart(x: byte) { !IsTrail(x) }

  /** The start of the last rune: at most three bytes further back. */
  function LastStart(s: seq<byte>, start: int, lim: nat): int
    requires -1 <= start < |s|
    ensures -1 <= LastStart(s, start, lim) <= start
    decreases start - lim
  {
    if start < lim || RuneStart(s[start]) then start else LastStart(s, start - 1, lim)
  }

  /** utf8.DecodeLastRuneInString */
  function DecodeLast(s: seq<byte>): (int, nat)
  {
    if s == [] then (RUNE_ERROR, 0)
    else if s[|s| - 1] < 0x80 then (s[|s| - 1], 1)
    else
      var lim := if |s| >= 4 then |s| - 4 else 0;
      var found := LastStart(s, |s| - 2, lim);
      var start := if found < 0 then 0 else found;
      var r := Decode(s[start..]);
      if start + r.1 != |s| then (RUNE_ERROR, 1) else r
  }

  // ----- decoder against encoder

  lemma {:induction false} Bits(c: int)
    requires 0 <= c
    ensures c / 0x40 * 0x40 + c % 0x40 == c
  {
  }

  /** A well-formed sequence is decoded to its scalar value. */
  lemma {:induction false} DecodeEncoded(c: int, rest: seq<byte>)
    requires IsScalar(c)
    ensures Decode(Encode(c) + rest) == (c, |Encode(c)|)
  {
    var e := Encode(c);
    Bits(c);
    Bits(c / 0x40);
    Bits(c / 0x40 / 0x40);
    DecodeShort(e, rest);
    if |e| == 2 {
      assert Decode(e) == (c, 2);
    } else if |e| == 3 {
      assert Decode(e) == (c, 3);
    } else if |e| == 4 {
      assert Decode(e) == (c, 4);
    }
  }

  /** The decoder looks no further than the announced length. */
  lemma {:induction false} DecodeShort(e: seq<byte>, rest: seq<byte>)
    requires e != [] && Announced(e[0]) == |e|
    ensures Decode(e + rest) == Decode(e)
  {
  }

  /** What is decoded without error is the encoding of a scalar value. */
  lemma {:induction false} DecodedIsEncoding(s: seq<byte>)
    requires !Malformed(s)
    ensures IsScalar(Decode(s).0) && Encode(Decode(s).0) == s[..Decode(s).1]
  {
    var n := Announced(s[0]);
    if n == 1 {
      assert s[..1] == [s[0]];
    } else if n == 2 {
      assert s[..2] == [s[0], s[1]];
      Digits64(0, 0, s[0] - 0xc0, s[1] - 0x80);
    } else if n == 3 {
      assert s[..3] == [s[0], s[1], s[2]];
      Digits64(0, s[0] - 0xe0, s[1] - 0x80, s[2] - 0x80);
    } else {
      assert s[..4] == [s[0], s[1], s[2], s[3]];
      Digits64(s[0] - 0xf0, s[1] - 0x80, s[2] - 0x80, s[3] - 0x80);
    }
  }

  lemma {:induction false} Digits64(c3: int, c2: int, c1: int, c0: int)
    requires 0 <= c3 && 0 <= c2 < 0x40 && 0 <= c1 < 0x40 && 0 <= c0 < 0x40
    ensures var c := c3 * 0x4_0000 + c2 * 0x1000 + c1 * 0x40 + c0;
            c % 0x40 == c0 && c / 0x40 % 0x40 == c1 && c / 0x40 / 0x40 % 0x40 == c2 && c / 0x40 / 0x40 / 0x40 == c3
  {
    var c := c3 * 0x4_0000 + c2 * 0x1000 + c1 * 0x40 + c0;
    assert c == (c3 * 0x1000 + c2 * 0x40 + c1) * 0x40 + c0;
    assert c / 0x40 == (c3 * 0x40 + c2) * 0x40 + c1;
  }

  /** Decoding an ASCII value means that the first byte is that value. */
  lemma {:induction false} DecodeAscii(s: seq<byte>, c: int)
    requires s != [] && 0 <= c < 0x80
    ensures Decode(s).0 == c <==> s[0] == c
    ensures s[0] == c ==> Decode(s).1 == 1
  {
  }

  /** The last rune is an ASCII value exactly when the last byte is. */
  lemma {:induction false} LastAscii(s: seq<byte>, c: int)
    requires s != [] && 0 <= c < 0x80
    ensures DecodeLast(s).0 == c <==> s[|s| - 1] == c
    ensures s[|s| - 1] == c ==> DecodeLast(s).1 == 1
  {
    if s[|s| - 1] >= 0x80 {
      var lim := if |s| >= 4 then |s| - 4 else 0;
      var found := LastStart(s, |s| - 2, lim);
      var start := if found < 0 then 0 else found;
      DecodeAscii(s[start..], c);
    }
  }

  /** The bytes of a multi-byte sequence are never ASCII. */
  lemma {:induction false} WideBytes(c: int)
    requires IsScalar(c) && c >= 0x80
    ensures forall k :: 0 <= k < |Encode(c)| ==> Encode(c)[k] >= 0x80
  {
  }

  predicate AllScalar(cs: seq<int>) { forall k :: 0 <= k < |cs| ==> IsScalar(cs[k]) }

  lemma {:induction false} EncodeAllSnoc(cs: seq<int>, c: int)
    requires AllScalar(cs) && IsScalar(c)
    ensures AllScalar(cs + [c]) && EncodeAll(cs + [c]) == EncodeAll(cs) + Encode(c)
  {
    if cs == [] {
      assert (cs + [c])[1..] == [];
      assert EncodeAll([]) == [];
    } else {
      assert (cs + [c])[1..] == cs[1..] + [c];
      EncodeAllSnoc(cs[1..], c);
    }
  }

  /** Encodings are uniquely decodable: an encoding that begins another one stands
      for the beginning of its scalar values. */
  lemma {:induction false} EncodeAllPrefix(cs: seq<int>, ds: seq<int>, rest: seq<byte>)
    requires AllScalar(cs) && AllScalar(ds) && EncodeAll(ds) == EncodeAll(cs) + rest
    ensures cs <= ds && EncodeAll(ds[|cs|..]) == rest
  {
    if cs != [] {
      var tail := EncodeAll(cs[1..]) + rest;
      assert EncodeAll(cs) + rest == Encode(cs[0]) + tail;
      DecodeEncoded(cs[0], tail);
      assert EncodeAll(ds) != [];
      DecodeEncoded(ds[0], EncodeAll(ds[1..]));
      assert EncodeAll(ds)[|Encode(ds[0])|..] == EncodeAll(ds[1..]);
      assert (Encode(cs[0]) + tail)[|Encode(cs[0])|..] == tail;
      EncodeAllPrefix(cs[1..], ds[1..], rest);
      assert ds[1..][|cs[1..]|..] == ds[|cs|..];
    }
  }

  /** The examples of section 7 of RFC 3629 and one sequence of each length. */
  lemma {:induction false} Examples()
    ensures Encode(0x41) == [0x41] && Encode(0x391) == [0xce, 0x91] && Encode(0x2262) == [0xe2, 0x89, 0xa2]
    ensures Encode(0xd55c) == [0xed, 0x95, 0x9c] && Encode(0x65e5) == [0xe6, 0x97, 0xa5]
    ensures Encode(0x233b4) == [0xf0, 0xa3, 0x8e, 0xb4] && Encode(0xfeff) == [0xef, 0xbb, 0xbf]
  {
  }
}
