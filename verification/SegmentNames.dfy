/** Segment file names: how the playlist writes them and how the server reads them. */
module SegmentNames {
  import opened Boxes
  import opened Bytes
  import opened Wrappers

  const SEG_PREFIX: bytes := Ascii("seg_")
  const SEG_SUFFIX: bytes := Ascii(".m4s")
  const SEG_MIN_DIGITS := 4
  const ZERO: byte := 48

  predicate IsDigit(b: byte) {
    ZERO <= b <= ZERO + 9
  }

  predicate AllDigits(s: bytes) {
    forall i :: 0 <= i < |s| ==> IsDigit(s[i])
  }

  /** Decimal digits, without leading zeros. */
  function Digits(n: nat): (s: bytes)
    ensures |s| > 0 && AllDigits(s)
    ensures n > 0 ==> s[0] != ZERO
  {
    if n < 10 then [ZERO + n] else Digits(n / 10) + [ZERO + n % 10]
  }

  /** The number that a string of digits stands for. */
  function Value(s: bytes): nat
    requires AllDigits(s)
  {
    if |s| == 0 then 0 else Value(s[..|s| - 1]) * 10 + (s[|s| - 1] - ZERO)
  }

  function Repeat(b: byte, n: nat): (s: bytes)
    ensures |s| == n && forall i :: 0 <= i < n ==> s[i] == b
  {
    seq(n, _ => b)
  }

  /** Digits, padded on the left to a minimum width. */
  function MinWidth(n: nat, width: nat): (s: bytes)
    ensures |s| >= width && AllDigits(s)
  {
    var d := Digits(n);
    Repeat(ZERO, if |d| < width then width - |d| else 0) + d
  }

  /** The name of segment `k`: numbering starts at 1. */
  function SegmentName(k: nat): bytes {
    SEG_PREFIX + MinWidth(k + 1, 4) + SEG_SUFFIX
  }

  function StripPrefix(s: bytes, prefix: bytes): Option<bytes> {
    if prefix <= s then Some(s[|prefix|..]) else None
  }

  function StripSuffix(s: bytes, suffix: bytes): Option<bytes> {
    if |suffix| <= |s| && s[|s| - |suffix|..] == suffix then Some(s[..|s| - |suffix|]) else None
  }

  /** The segment that a file name asks for. */
  function ParseSegmentIdx(filename: bytes): Option<u32> {
    var rest := StripPrefix(filename, SEG_PREFIX);
    if rest.None? then None
    else
      var body := StripSuffix(rest.value, SEG_SUFFIX);
      if body.None? || |body.value| < SEG_MIN_DIGITS || !AllDigits(body.value) then None
      else
        var oneBased := Value(body.value);
        if oneBased > U32_MAX || oneBased == 0 then None else Some(oneBased - 1)
  }

  lemma {:induction false} ValueOfDigits(n: nat)
    ensures Value(Digits(n)) == n
  {
    if n >= 10 {
      ValueOfDigits(n / 10);
      assert Digits(n)[..|Digits(n)| - 1] == Digits(n / 10);
    }
  }

  lemma {:induction false} LeadingZeros(z: nat, s: bytes)
    requires AllDigits(s)
    ensures AllDigits(Repeat(ZERO, z) + s) && Value(Repeat(ZERO, z) + s) == Value(s)
    decreases |s|, z
  {
    var t := Repeat(ZERO, z) + s;
    if |s| > 0 {
      LeadingZeros(z, s[..|s| - 1]);
      assert t[..|t| - 1] == Repeat(ZERO, z) + s[..|s| - 1];
    } else if z > 0 {
      LeadingZeros(z - 1, s);
      assert t[..|t| - 1] == Repeat(ZERO, z - 1) + s;
    }
  }

  /** A number has one digit string that does not start with a zero. */
  lemma {:induction false} DigitsOfValue(s: bytes)
    requires AllDigits(s) && |s| > 0 && s[0] != ZERO
    ensures Value(s) > 0 && Digits(Value(s)) == s
  {
    var front, last := s[..|s| - 1], s[|s| - 1] - ZERO;
    if |s| > 1 {
      DigitsOfValue(front);
      assert Value(s) / 10 == Value(front) && Value(s) % 10 == last;
      assert s == front + [s[|s| - 1]];
    } else {
      assert front == [];
      assert s == [s[0]];
    }
  }

  lemma NameParts(body: bytes)
    ensures StripPrefix(SEG_PREFIX + body + SEG_SUFFIX, SEG_PREFIX) == Some(body + SEG_SUFFIX)
    ensures StripSuffix(body + SEG_SUFFIX, SEG_SUFFIX) == Some(body)
  {
    Assoc(SEG_PREFIX, body, SEG_SUFFIX);
  }

  /** Every name that the playlist can emit asks for the segment it was emitted for; past 32 bits, for none. */
  lemma NameReadsBack(k: nat)
    ensures ParseSegmentIdx(SegmentName(k)) == if k + 1 <= U32_MAX then Some(k) else None
  {
    var d := Digits(k + 1);
    NameParts(MinWidth(k + 1, 4));
    ValueOfDigits(k + 1);
    LeadingZeros(if |d| < 4 then 4 - |d| else 0, d);
  }

  /** How many zeros a digit string starts with. */
  function ZerosAhead(s: bytes): (z: nat)
    ensures z <= |s| && s[..z] == Repeat(ZERO, z)
    ensures z < |s| ==> s[z] != ZERO
  {
    if |s| == 0 || s[0] != ZERO then 0 else 1 + ZerosAhead(s[1..])
  }

  /** Which digit strings of a number are the padded one. */
  lemma {:induction false} PaddedDigits(body: bytes)
    requires AllDigits(body) && |body| >= 4 && Value(body) > 0
    ensures MinWidth(Value(body), 4) == body <==> |body| == 4 || body[0] != ZERO
  {
    hide Value, Digits;
    var z := ZerosAhead(body);
    var t := body[z..];
    assert body == Repeat(ZERO, z) + t;
    LeadingZeros(z, t);
    NoDigits();
    DigitsOfValue(t);
  }

  lemma NoDigits()
    ensures Value([]) == 0
  {}

  /** What is between prefix and suffix of an accepted name. */
  lemma {:induction false} AcceptedBody(body: bytes)
    requires ParseSegmentIdx(SEG_PREFIX + body + SEG_SUFFIX).Some?
    ensures AllDigits(body) && |body| >= 4
    ensures Value(body) == ParseSegmentIdx(SEG_PREFIX + body + SEG_SUFFIX).value + 1
  {
    hide Value, StripPrefix, StripSuffix;
    NameParts(body);
  }

  /**
   A name that is accepted is the one the playlist uses exactly when it has four digits or does not
   start with a zero: longer names with leading zeros are second names for the same segment.
   */
  lemma AcceptedNames(body: bytes)
    requires ParseSegmentIdx(SEG_PREFIX + body + SEG_SUFFIX).Some?
    ensures |body| >= 4
    ensures var k := ParseSegmentIdx(SEG_PREFIX + body + SEG_SUFFIX).value;
            SEG_PREFIX + body + SEG_SUFFIX == SegmentName(k) <==> |body| == 4 || body[0] != ZERO
  {
    hide Value, MinWidth, ParseSegmentIdx, StripPrefix, StripSuffix, AllDigits;
    AcceptedBody(body);
    PaddedDigits(body);
    NameParts(body);
    NameParts(MinWidth(Value(body), 4));
  }

  lemma FourDigits(a: byte, b: byte, c: byte, d: byte)
    requires IsDigit(a) && IsDigit(b) && IsDigit(c) && IsDigit(d)
    ensures Value([a, b, c, d]) == (a - ZERO) * 1000 + (b - ZERO) * 100 + (c - ZERO) * 10 + (d - ZERO)
  {
    var s := [a, b, c, d];
    assert s[..3] == [a, b, c] && s[..3][..2] == [a, b] && s[..3][..2][..1] == [a] && s[..3][..2][..1][..0] == [];
    assert Value(s[..3][..2][..1]) == a - ZERO;
    assert Value(s[..3][..2]) == (a - ZERO) * 10 + (b - ZERO);
  }

  /** Names count from 1, in four decimal digits, or more where four do not suffice. */
  lemma EmittedNames()
    ensures SegmentName(0) == Ascii("seg_0001.m4s") && SegmentName(5678) == Ascii("seg_5679.m4s")
    ensures SegmentName(9999) == Ascii("seg_10000.m4s")
  {
    hide SegmentName, Value;
    FourDigits(48, 48, 48, 49);
    FourDigits(53, 54, 55, 57);
    FourDigits(49, 48, 48, 48);
    LastDigitAdds([49, 48, 48, 48], 48);
    assert [49, 48, 48, 48, 48] == [49, 48, 48, 48] + [48];
    NameOf([48, 48, 48, 49]);
    NameOf([53, 54, 55, 57]);
    NameOf([49, 48, 48, 48, 48]);
    assert Ascii("seg_0001.m4s") == SEG_PREFIX + [48, 48, 48, 49] + SEG_SUFFIX;
    assert Ascii("seg_5679.m4s") == SEG_PREFIX + [53, 54, 55, 57] + SEG_SUFFIX;
    assert Ascii("seg_10000.m4s") == SEG_PREFIX + [49, 48, 48, 48, 48] + SEG_SUFFIX;
  }

  lemma {:induction false} LastDigitAdds(s: bytes, d: byte)
    requires AllDigits(s) && IsDigit(d)
    ensures Value(s + [d]) == Value(s) * 10 + (d - ZERO)
  {
    assert (s + [d])[..|s|] == s;
  }

  /** Digits without leading zeros, or just four of them, name the segment of their value. */
  lemma {:induction false} NameOf(body: bytes)
    requires AllDigits(body) && 0 < Value(body) <= U32_MAX
    requires |body| == 4 || (|body| > 4 && body[0] != ZERO)
    ensures SegmentName(Value(body) - 1) == SEG_PREFIX + body + SEG_SUFFIX
  {
    hide Value, MinWidth;
    PaddedDigits(body);
  }

  /** Such a second name: five digits for the first segment. */
  lemma SecondName()
    ensures ParseSegmentIdx(Ascii("seg_00001.m4s")) == Some(0)
    ensures Ascii("seg_00001.m4s") != SegmentName(0)
  {
    hide SegmentName;
    var body: bytes := [48, 48, 48, 48, 49];
    assert Ascii("seg_00001.m4s") == SEG_PREFIX + body + SEG_SUFFIX;
    NameParts(body);
    assert body == Repeat(ZERO, 4) + [49];
    LeadingZeros(4, [49]);
    assert Value([49]) == 1 by {
      NoDigits();
    }
    AcceptedNames(body);
  }
}
