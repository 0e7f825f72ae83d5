/** Bytes and big-endian integers (encoding/binary). */
module Bytes {
  type byte = x: int | 0 <= x < 0x100
  type uint32 = x: int | 0 <= x < 0x1_0000_0000
  type int32 = x: int | -0x8000_0000 <= x < 0x8000_0000
  type int64 = x: int | -0x8000_0000_0000_0000 <= x < 0x8000_0000_0000_0000

  const TWO32 := 0x1_0000_0000
  const TWO64 := 0x1_0000_0000_0000_0000

  /** binary.BigEndian.PutUint32 */
  function Put32(n: uint32): (s: seq<byte>)
    ensures |s| == 4
  {
    [n / 0x100_0000, n / 0x1_0000 % 0x100, n / 0x100 % 0x100, n % 0x100]
  }

  /** binary.BigEndian.Uint32 */
  function Get32(s: seq<byte>): uint32
    requires |s| == 4
  {
    var a: int, b: int, c: int, d: int := s[0], s[1], s[2], s[3];
    0x100_0000 * a + 0x1_0000 * b + 0x100 * c + d
  }

  lemma {:induction false} GetPut32(n: uint32)
    ensures Get32(Put32(n)) == n
  {
    var a, b, c := n / 0x100, n / 0x1_0000, n / 0x100_0000;
    assert a == n / 0x100 && b == a / 0x100 && c == b / 0x100;
  }

  function Put64(n: int): (s: seq<byte>)
    requires 0 <= n < TWO64
    ensures |s| == 8
  {
    Put32(n / TWO32) + Put32(n % TWO32)
  }

  function Get64(s: seq<byte>): (n: int)
    requires |s| == 8
    ensures 0 <= n < TWO64
  {
    Get32(s[..4]) * TWO32 + Get32(s[4..])
  }

  lemma {:induction false} GetPut64(n: int)
    requires 0 <= n < TWO64
    ensures Get64(Put64(n)) == n
  {
    GetPut32(n / TWO32);
    GetPut32(n % TWO32);
    assert Put64(n)[..4] == Put32(n / TWO32) && Put64(n)[4..] == Put32(n % TWO32);
  }

  /** The conversions uint32(int32) and back. */
  function Unsigned32(i: int32): uint32 { if i < 0 then i + TWO32 else i }

  function Signed32(u: uint32): int32 { if u >= 0x8000_0000 then u - TWO32 else u }

  function Unsigned64(i: int64): (u: int)
    ensures 0 <= u < TWO64
  {
    if i < 0 then i + TWO64 else i
  }

  function Signed64(u: int): int64
    requires 0 <= u < TWO64
  {
    if u >= 0x8000_0000_0000_0000 then u - TWO64 else u
  }

  lemma {:induction false} SignedRoundTrip(i: int32, j: int64)
    ensures Signed32(Get32(Put32(Unsigned32(i)))) == i
    ensures Signed64(Get64(Put64(Unsigned64(j)))) == j
  {
    GetPut32(Unsigned32(i));
    GetPut64(Unsigned64(j));
  }
}
