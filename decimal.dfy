// Decimal integers as the C++ standard library reads and writes them:
// std::stoi (strtol in base 10, then a range check against int) and the
// decimal form `ostream << int` prints.
module Decimal {
  import opened Wrappers
  import opened CInt

  /** isspace in the C locale. */
  predicate IsSpace(ch: char)
  {
    ch == ' ' || ch == '\t' || ch == '\n' || ch == '\U{B}' || ch == '\U{C}' || ch == '\r'
  }

  predicate IsDigit(ch: char) { '0' <= ch <= '9' }

  predicate AllDigits(s: string) { forall i :: 0 <= i < |s| ==> IsDigit(s[i]) }

  function DigitChar(d: nat): (ch: char)
    requires d < 10
    ensures IsDigit(ch) && ch as int - '0' as int == d
  {
    ('0' as int + d) as char
  }

  /** The input without its leading white space. */
  function SkipSpace(s: string): (t: string)
    ensures |t| <= |s| && t == s[|s| - |t|..]
    ensures |t| > 0 ==> !IsSpace(t[0])
    ensures forall i :: 0 <= i < |s| - |t| ==> IsSpace(s[i])
  {
    if |s| > 0 && IsSpace(s[0]) then SkipSpace(s[1..]) else s
  }

  /** Length of the leading run of digits. */
  function DigitRun(s: string): (n: nat)
    ensures n <= |s| && AllDigits(s[..n])
    ensures n < |s| ==> !IsDigit(s[n])
  {
    if |s| > 0 && IsDigit(s[0]) then
      var m := DigitRun(s[1..]);
      assert s[..m + 1] == [s[0]] + s[1..][..m];
      m + 1
    else 0
  }

  /** The value of a string of decimal digits, most significant first. */
  function DigitsValue(ds: string): nat
    requires AllDigits(ds)
  {
    if ds == [] then 0 else DigitsValue(ds[..|ds| - 1]) * 10 + (ds[|ds| - 1] as int - '0' as int)
  }

  /**
   * std::stoi: skip white space, an optional sign, then at least one digit;
   * the longest run of digits is read and the rest ignored. No digit, or a
   * value outside int, throws (None).
   */
  function StoI(s: string): (r: Option<int>)
    ensures r.Some? ==> IsInt32(r.value)
  {
    ReadSigned(SkipSpace(s))
  }

  /** The sign and digits part of StoI, once white space is skipped. */
  function ReadSigned(t: string): (r: Option<int>)
    ensures r.Some? ==> IsInt32(r.value)
  {
    if |t| > 0 && t[0] == '-' then InRange(ReadDigits(t[1..]), true)
    else if |t| > 0 && t[0] == '+' then InRange(ReadDigits(t[1..]), false)
    else InRange(ReadDigits(t), false)
  }

  /** The value of the leading run of digits, None when there is none. */
  function ReadDigits(b: string): Option<nat>
  {
    var n := DigitRun(b);
    if n == 0 then None else Some(DigitsValue(b[..n]))
  }

  function InRange(v: Option<nat>, negative: bool): (r: Option<int>)
    ensures r.Some? ==> IsInt32(r.value)
  {
    match v
    case None => None
    case Some(m) =>
      var x := if negative then -(m as int) else m as int;
      if IsInt32(x) then Some(x) else None
  }

  /** Decimal digits of n, without leading zeros. */
  function NatDigits(n: nat): (s: string)
    ensures |s| > 0 && AllDigits(s)
    ensures DigitsValue(s) == n
  {
    if n < 10 then [DigitChar(n)]
    else
      var s := NatDigits(n / 10) + [DigitChar(n % 10)];
      assert s[..|s| - 1] == NatDigits(n / 10);
      s
  }

  /** What `ostream << x` prints for an int. */
  function IntToString(x: int): string
  {
    if x < 0 then "-" + NatDigits(-x) else NatDigits(x)
  }

  /** The digit run of a digit string followed by a non-digit is that string. */
  lemma {:induction false} DigitRunOfDigits(ds: string, rest: string)
    requires AllDigits(ds)
    requires |rest| == 0 || !IsDigit(rest[0])
    ensures DigitRun(ds + rest) == |ds| && (ds + rest)[..|ds|] == ds
  {
    if |ds| == 0 {
      assert ds + rest == rest;
    } else {
      DigitRunOfDigits(ds[1..], rest);
      assert (ds + rest)[1..] == ds[1..] + rest;
    }
  }

  lemma ReadDigitsOf(ds: string, rest: string)
    requires |ds| > 0 && AllDigits(ds)
    requires |rest| == 0 || !IsDigit(rest[0])
    ensures ReadDigits(ds + rest) == Some(DigitsValue(ds))
  {
    DigitRunOfDigits(ds, rest);
  }

  lemma NoSpaceToSkip(s: string)
    requires |s| > 0 && !IsSpace(s[0])
    ensures SkipSpace(s) == s
  {
  }

  lemma ReadMinus(b: string, s: string)
    requires s == ['-'] + b
    ensures StoI(s) == InRange(ReadDigits(b), true)
  {
    NoSpaceToSkip(s);
    assert s[1..] == b;
  }

  lemma ReadUnsigned(s: string)
    requires |s| > 0 && IsDigit(s[0])
    ensures StoI(s) == InRange(ReadDigits(s), false)
  {
    NoSpaceToSkip(s);
  }

  lemma NegativeInRange(m: nat)
    requires IsInt32(-(m as int))
    ensures InRange(Some(m), true) == Some(-(m as int))
  {
  }

  lemma PositiveInRange(m: nat)
    requires IsInt32(m)
    ensures InRange(Some(m), false) == Some(m)
  {
  }

  lemma StoIOfNegative(b: string, s: string, m: nat)
    requires s == ['-'] + b && ReadDigits(b) == Some(m) && IsInt32(-(m as int))
    ensures StoI(s) == Some(-(m as int))
  {
    ReadMinus(b, s);
    NegativeInRange(m);
  }

  lemma StoIOfUnsigned(ds: string, rest: string, s: string)
    requires |ds| > 0 && AllDigits(ds) && IsInt32(DigitsValue(ds))
    requires |rest| == 0 || !IsDigit(rest[0])
    requires s == ds + rest
    ensures StoI(s) == Some(DigitsValue(ds))
  {
    assert s[0] == ds[0];
    ReadUnsigned(s);
    ReadDigitsOf(ds, rest);
    PositiveInRange(DigitsValue(ds));
  }

  /** A printed int reads back as itself, whatever non-digit text follows it. */
  lemma StoIOfIntToString(x: int, rest: string)
    requires IsInt32(x)
    requires |rest| == 0 || !IsDigit(rest[0])
    ensures StoI(IntToString(x) + rest) == Some(x)
  {
    if x < 0 {
      var ds := NatDigits(-x);
      assert IntToString(x) + rest == ['-'] + (ds + rest);
      ReadDigitsOf(ds, rest);
      StoIOfNegative(ds + rest, IntToString(x) + rest, -x);
    } else {
      StoIOfUnsigned(NatDigits(x), rest, IntToString(x) + rest);
    }
  }

  lemma StoIRoundTrip(x: int)
    requires IsInt32(x)
    ensures StoI(IntToString(x)) == Some(x)
  {
    StoIOfIntToString(x, "");
    assert IntToString(x) + "" == IntToString(x);
  }
}
