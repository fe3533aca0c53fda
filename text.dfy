/**
 * The string operations the application relies on from Python: `str()` of an
 * integer, the `02` zero-padding format, `str.join` and `str.strip`.
 */
module Text {
  import opened Options

  predicate IsDigit(c: char) { '0' <= c <= '9' }

  predicate AllDigits(s: string) { forall i :: 0 <= i < |s| ==> IsDigit(s[i]) }

  function DigitValue(c: char): nat
    requires IsDigit(c)
  {
    c as int - '0' as int
  }

  function DigitChar(d: nat): (c: char)
    requires d < 10
    ensures IsDigit(c) && DigitValue(c) == d
  {
    ('0' as int + d) as char
  }

  /** `str(n)` for a non-negative integer: decimal digits without leading zeros. */
  function NatText(n: nat): (s: string)
    ensures 1 <= |s| && AllDigits(s)
    ensures |s| == 1 <==> n < 10
    ensures n < 100 ==> |s| <= 2
  {
    if n < 10 then [DigitChar(n)] else NatText(n / 10) + [DigitChar(n % 10)]
  }

  /** The number a string of decimal digits denotes (leading zeros allowed). */
  function DigitsValue(s: string): nat
    requires AllDigits(s)
  {
    if s == [] then 0 else DigitsValue(s[..|s| - 1]) * 10 + DigitValue(s[|s| - 1])
  }

  lemma {:induction false} NatTextRoundTrip(n: nat)
    ensures DigitsValue(NatText(n)) == n
  {
    if n >= 10 {
      NatTextRoundTrip(n / 10);
      var s := NatText(n / 10) + [DigitChar(n % 10)];
      assert s[..|s| - 1] == NatText(n / 10);
    }
  }

  lemma {:induction false} LeadingZero(s: string)
    requires AllDigits(s)
    ensures AllDigits("0" + s) && DigitsValue("0" + s) == DigitsValue(s)
  {
    if s != [] {
      var t := "0" + s;
      assert t[..|t| - 1] == "0" + s[..|s| - 1];
      LeadingZero(s[..|s| - 1]);
    }
  }

  /** Python's `f"{x:02}"`: at least two characters, zero-padded after the sign. */
  function Pad2(x: int): string
  {
    if x < 0 then "-" + NatText(-x)
    else if x < 10 then "0" + NatText(x)
    else NatText(x)
  }

  lemma Pad2TwoDigits(x: int)
    requires 0 <= x < 100
    ensures |Pad2(x)| == 2 && AllDigits(Pad2(x)) && DigitsValue(Pad2(x)) == x
  {
    NatTextRoundTrip(x);
    if x < 10 { LeadingZero(NatText(x)); }
  }

  /**
   * Stand-in for the ISO 8601 text a timestamp is saved as: the signed
   * decimal number of seconds. Only its round trip with ParseTimestamp matters.
   */
  function TimestampText(t: int): string
  {
    if t < 0 then "-" + NatText(-t) else NatText(t)
  }

  /** Parses TimestampText's format; None stands for the parser's failure. */
  function ParseTimestamp(s: string): Option<int>
  {
    if 2 <= |s| && s[0] == '-' && AllDigits(s[1..]) then Some(-(DigitsValue(s[1..]) as int))
    else if 1 <= |s| && AllDigits(s) then Some(DigitsValue(s))
    else None
  }

  lemma TimestampRoundTrip(t: int)
    ensures TimestampText(t) != ""
    ensures ParseTimestamp(TimestampText(t)) == Some(t)
  {
    if t < 0 {
      NegativeTimestampRoundTrip(t);
    } else {
      NaturalTimestampRoundTrip(t);
    }
  }

  lemma NegativeTimestampRoundTrip(t: int)
    requires t < 0
    ensures ParseTimestamp("-" + NatText(-t)) == Some(t)
  {
    var digits := NatText(-t);
    var s := "-" + digits;
    assert 2 <= |s| && s[0] == '-' && s[1..] == digits;
    NatTextRoundTrip(-t);
    var v := DigitsValue(s[1..]);
    assert v == -t;
    assert ParseTimestamp(s) == Some(-(v as int));
  }

  lemma NaturalTimestampRoundTrip(t: nat)
    ensures ParseTimestamp(NatText(t)) == Some(t)
  {
    var s := NatText(t);
    assert IsDigit(s[0]);
    NatTextRoundTrip(t);
  }

  /** Python's `sep.join(parts)`. */
  function Join(sep: string, parts: seq<string>): string
  {
    if |parts| == 0 then ""
    else if |parts| == 1 then parts[0]
    else parts[0] + sep + Join(sep, parts[1..])
  }

  /** A non-empty join ends with its last part: no separator follows it. */
  lemma {:induction false} JoinEndsWithLast(sep: string, parts: seq<string>)
    requires |parts| >= 1
    ensures var j := Join(sep, parts);
            |j| >= |parts[|parts| - 1]| && j[|j| - |parts[|parts| - 1]|..] == parts[|parts| - 1]
  {
    if |parts| > 1 {
      JoinEndsWithLast(sep, parts[1..]);
    }
  }

  /** The characters Python's `str.isspace` accepts. */
  predicate IsSpace(c: char)
  {
    var k := c as int;
    (9 <= k <= 13) || (0x1c <= k <= 0x20) || k == 0x85 || k == 0xa0 || k == 0x1680
    || (0x2000 <= k <= 0x200a) || k == 0x2028 || k == 0x2029 || k == 0x202f
    || k == 0x205f || k == 0x3000
  }

  /** Python's `str.rstrip()`: the longest prefix that does not end in whitespace. */
  function RStrip(s: string): (r: string)
    ensures r <= s
    ensures r == [] || !IsSpace(r[|r| - 1])
    ensures forall i :: |r| <= i < |s| ==> IsSpace(s[i])
  {
    if s == [] || !IsSpace(s[|s| - 1]) then s else RStrip(s[..|s| - 1])
  }

  /** Python's `str.lstrip()`: the longest suffix that does not start with whitespace. */
  function LStrip(s: string): (r: string)
    ensures |r| <= |s| && r == s[|s| - |r|..]
    ensures r == [] || !IsSpace(r[0])
    ensures forall i :: 0 <= i < |s| - |r| ==> IsSpace(s[i])
  {
    if s == [] || !IsSpace(s[0]) then s else LStrip(s[1..])
  }

  /** Python's `str.strip()`. */
  function Strip(s: string): string
  {
    RStrip(LStrip(s))
  }
}
