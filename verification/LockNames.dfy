/** Node names of the lock recipe: what the server appends to a sequential
    node and what `parseSeq` (zk/lock.go) reads back. */
module LockNames {
  import opened Text

  const MAX_INT64 := 0x7fff_ffff_ffff_ffff
  const INT32_LIMIT := 0x8000_0000

  predicate IsDigit(c: char) { '0' <= c <= '9' }

  function DigitChar(d: nat): (c: char)
    requires d < 10
    ensures IsDigit(c) && DigitValue(c) == d
  {
    ('0' as int + d) as char
  }

  function DigitValue(c: char): nat
    requires IsDigit(c)
  {
    c as int - '0' as int
  }

  /** The value of a run of decimal digits. */
  function DecimalValue(s: string): nat
    requires forall c :: c in s ==> IsDigit(c)
  {
    if s == [] then 0 else 10 * DecimalValue(s[..|s| - 1]) + DigitValue(Last(s))
  }

  /** strconv.Atoi on a 64-bit platform. */
  function Atoi(s: string): (r: Option<int>)
  {
    var negative := s != [] && s[0] == '-';
    var digits := if s != [] && (s[0] == '-' || s[0] == '+') then s[1..] else s;
    if digits == [] || exists c :: c in digits && !IsDigit(c) then None
    else
      var v := (if negative then -1 else 1) * DecimalValue(digits);
      if -MAX_INT64 - 1 <= v <= MAX_INT64 then Some(v) else None
  }

  /** zk/lock.go parseSeq: the text after the last dash, as a number. */
  function ParseSeq(path: string): (r: Option<int>)
    ensures r.Some? ==> r.value >= 0
  {
    SplitPartsFree(path, '-');
    Atoi(Last(Split(path, '-')))
  }

  function Digits(n: nat): (s: string)
    ensures s != [] && forall c :: c in s ==> IsDigit(c)
  {
    if n < 10 then [DigitChar(n)] else Digits(n / 10) + [DigitChar(n % 10)]
  }

  function Pad(s: string, width: nat): string
    decreases width - |s|
  {
    if |s| >= width then s else Pad("0" + s, width)
  }

  /** The server's suffix: the counter printed with "%010d". */
  function FormatSequence(n: int): string
  {
    if n >= 0 then Pad(Digits(n), 10) else "-" + Pad(Digits(-n), 9)
  }

  const PROTECTED_PREFIX := "_c_"

  /** The child name the server gives to a protected sequential create of "lock-". */
  function NodeName(guid: string, n: int): string
  {
    PROTECTED_PREFIX + guid + "-lock-" + FormatSequence(n)
  }

  lemma {:induction false} DigitsValue(n: nat)
    ensures DecimalValue(Digits(n)) == n
  {
    if n >= 10 {
      DigitsValue(n / 10);
      var s := Digits(n);
      assert s[..|s| - 1] == Digits(n / 10);
    } else {
      assert Digits(n)[..0] == [];
    }
  }

  lemma {:induction false} LeadingZero(s: string)
    requires forall c :: c in s ==> IsDigit(c)
    ensures forall c :: c in "0" + s ==> IsDigit(c)
    ensures DecimalValue("0" + s) == DecimalValue(s)
  {
    var z := "0" + s;
    if s == [] {
      assert z[..0] == [];
    } else {
      LeadingZero(s[..|s| - 1]);
      assert z[..|z| - 1] == "0" + s[..|s| - 1];
    }
  }

  lemma {:induction false} PadValue(s: string, width: nat)
    requires forall c :: c in s ==> IsDigit(c)
    ensures |Pad(s, width)| >= |s|
    ensures forall c :: c in Pad(s, width) ==> IsDigit(c)
    ensures DecimalValue(Pad(s, width)) == DecimalValue(s)
    decreases width - |s|
  {
    if |s| < width {
      LeadingZero(s);
      PadValue("0" + s, width);
    }
  }

  /** parseSeq reads the magnitude of the counter whatever precedes the last
      dash: dashes in the lock path or in the GUID do not matter. */
  lemma {:induction false} ParseSeqMagnitude(before: string, n: int)
    requires -INT32_LIMIT <= n < INT32_LIMIT
    ensures ParseSeq(before + "-" + FormatSequence(n)) == Some(if n >= 0 then n else -n)
  {
    hide Split, Atoi, Pad, Digits, DecimalValue;
    var m := if n >= 0 then n else -n;
    var width := if n >= 0 then 10 else 9;
    var shown := Pad(Digits(m), width);
    DigitsValue(m);
    PadValue(Digits(m), width);
    SplitFree(shown, '-');
    var head := if n >= 0 then before else before + "-";
    assert before + "-" + FormatSequence(n) == head + ['-'] + shown;
    SplitAt(head, '-', shown);
    assert Last(Split(before + "-" + FormatSequence(n), '-')) == shown;
    AtoiOfDigits(shown);
  }

  lemma {:induction false} AtoiOfDigits(s: string)
    requires s != [] && (forall c :: c in s ==> IsDigit(c)) && DecimalValue(s) <= MAX_INT64
    ensures Atoi(s) == Some(DecimalValue(s))
  {
    assert s[0] in s;
  }

  /** parseSeq recovers the counter of a protected node, for every lock path
      and every GUID, exactly as long as the server's int32 counter has not
      wrapped to a negative number. */
  lemma {:induction false} ParseSeqRecovers(dir: string, guid: string, n: int)
    requires -INT32_LIMIT <= n < INT32_LIMIT
    ensures ParseSeq(dir + NodeName(guid, n)) == Some(n) <==> n >= 0
  {
    hide ParseSeq, FormatSequence;
    var before := dir + PROTECTED_PREFIX + guid + "-lock";
    ParseSeqMagnitude(before, n);
    assert dir + NodeName(guid, n) == before + "-" + FormatSequence(n);
  }

  /** A child name and its full path parse alike. */
  lemma {:induction false} ParseSeqOfName(dir: string, guid: string, n: nat)
    requires n < INT32_LIMIT
    ensures ParseSeq(NodeName(guid, n)) == Some(n)
    ensures ParseSeq(dir + "/" + NodeName(guid, n)) == Some(n)
  {
    assert "" + NodeName(guid, n) == NodeName(guid, n);
    ParseSeqRecovers("", guid, n);
    ParseSeqRecovers(dir + "/", guid, n);
  }

  // ----- the server's suffix, character by character

  lemma {:induction false} PadWidth(s: string, width: nat)
    ensures |Pad(s, width)| == (if |s| >= width then |s| else width)
    decreases width - |s|
  {
    if |s| < width {
      PadWidth("0" + s, width);
    }
  }

  lemma {:induction false} DigitsWidth(n: nat, width: nat)
    requires width > 0 && n < Power10(width)
    ensures |Digits(n)| <= width
  {
    if n >= 10 {
      assert width > 1 by {
        assert Power10(1) == 10 * Power10(0);
      }
      DigitsWidth(n / 10, width - 1);
    }
  }

  function Power10(k: nat): nat
  {
    if k == 0 then 1 else 10 * Power10(k - 1)
  }

  /** The counter is printed as ten decimal digits of its value. */
  lemma {:induction false} TenDigits(n: nat)
    requires n < INT32_LIMIT
    ensures |FormatSequence(n)| == 10 && (forall c :: c in FormatSequence(n) ==> '0' <= c <= '9')
    ensures DecimalValue(FormatSequence(n)) == n
  {
    assert Power10(10) == 10000000000 by {
      assert Power10(5) == 100000;
      assert Power10(10) == 100000 * Power10(5);
    }
    DigitsWidth(n, 10);
    PadWidth(Digits(n), 10);
    PadValue(Digits(n), 10);
    DigitsValue(n);
  }

  /** No part of a suffix is a slash. */
  lemma {:induction false} SuffixFree(n: int)
    requires -INT32_LIMIT <= n < INT32_LIMIT
    ensures '/' !in FormatSequence(n)
  {
    PadValue(Digits(if n >= 0 then n else -n), if n >= 0 then 10 else 9);
  }
}
