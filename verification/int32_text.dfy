/** The 32-bit integers of C# and their text forms: `int.ToString()` and
    `int.TryParse` with the default `NumberStyles.Integer`. The model fixes the
    invariant culture, so the negative sign is always '-'. */
module Int32Text {
  import opened Wrappers

  type Int32 = x: int | -0x8000_0000 <= x < 0x8000_0000

  predicate IsDigit(c: char) {
    '0' <= c <= '9'
  }

  predicate AllDigits(s: string) {
    forall i :: 0 <= i < |s| ==> IsDigit(s[i])
  }

  function DigitChar(d: nat): (c: char)
    requires d < 10
    ensures IsDigit(c)
  {
    "0123456789"[d]
  }

  function DigitValue(c: char): nat
    requires IsDigit(c)
  {
    c as int - '0' as int
  }

  /** The number a string of decimal digits denotes, most significant first. */
  function DigitsValue(s: string): nat
    requires AllDigits(s)
  {
    if |s| == 0 then 0 else DigitsValue(s[..|s| - 1]) * 10 + DigitValue(s[|s| - 1])
  }

  /** The shortest decimal representation of `n`. */
  function NatToDigits(n: nat): (s: string)
    ensures |s| > 0 && AllDigits(s)
    decreases n
  {
    if n < 10 then [DigitChar(n)] else NatToDigits(n / 10) + [DigitChar(n % 10)]
  }

  lemma {:induction false} DigitsRoundTrip(n: nat)
    ensures DigitsValue(NatToDigits(n)) == n
    decreases n
  {
    var s := NatToDigits(n);
    if n < 10 {
      assert s[..|s| - 1] == [];
    } else {
      DigitsRoundTrip(n / 10);
      assert s[..|s| - 1] == NatToDigits(n / 10);
    }
  }

  /** `int.ToString()`: a minus sign for negative values, then the digits. */
  function Format(n: Int32): (s: string)
    ensures |s| > 0
    ensures n >= 0 ==> AllDigits(s)
    ensures n < 0 ==> s[0] == '-' && AllDigits(s[1..])
  {
    var m: int := n;
    if m < 0 then "-" + NatToDigits(-m) else NatToDigits(m)
  }

  /** The whitespace `NumberStyles.AllowLeadingWhite` and `AllowTrailingWhite`
      accept: U+0009 to U+000D and the space. */
  predicate IsNumberWhite(c: char) {
    '\U{0009}' <= c <= '\U{000D}' || c == ' '
  }

  function StripLeadingWhite(s: string): (r: string)
    ensures |r| <= |s| && r == s[|s| - |r|..]
    ensures |s| > 0 && !IsNumberWhite(s[0]) ==> r == s
  {
    if |s| > 0 && IsNumberWhite(s[0]) then StripLeadingWhite(s[1..]) else s
  }

  function StripTrailingWhite(s: string): (r: string)
    ensures |r| <= |s| && r == s[..|r|]
    ensures |s| > 0 && !IsNumberWhite(s[|s| - 1]) ==> r == s
  {
    if |s| > 0 && IsNumberWhite(s[|s| - 1]) then StripTrailingWhite(s[..|s| - 1]) else s
  }

  /** A signed digit string, whitespace already removed. */
  function ParseSigned(t: string): Option<int> {
    if |t| > 0 && (t[0] == '-' || t[0] == '+') then
      var digits := t[1..];
      if |digits| > 0 && AllDigits(digits) then
        var v: int := DigitsValue(digits);
        Some(if t[0] == '-' then -v else v)
      else None
    else if |t| > 0 && AllDigits(t) then Some(DigitsValue(t))
    else None
  }

  /** `int.TryParse(s, out n)`: `None` is the `false` return. A null string,
      anything but optional whitespace around an optionally signed run of
      digits, and values outside the 32-bit range all fail. */
  function TryParse(s: Option<string>): (r: Option<Int32>)
    ensures s.None? ==> r.None?
    ensures r.Some? ==> |s.value| > 0
  {
    if s.None? then None
    else
      var t := StripTrailingWhite(StripLeadingWhite(s.value));
      match ParseSigned(t)
      case Some(v) => if -0x8000_0000 <= v < 0x8000_0000 then Some(v as Int32) else None
      case None => None
  }

  /** A string that starts and ends with a non-whitespace character is left
      alone by the whitespace stripping of the parser. */
  lemma StripLeavesFramedText(s: string)
    requires |s| > 0 && !IsNumberWhite(s[0]) && !IsNumberWhite(s[|s| - 1])
    ensures StripTrailingWhite(StripLeadingWhite(s)) == s
  {
  }

  lemma ParseSignedOfFormat(n: Int32)
    ensures ParseSigned(Format(n)) == Some(n as int)
  {
    var m: int := n;
    var s := Format(n);
    if m < 0 {
      DigitsRoundTrip(-m);
      assert s[1..] == NatToDigits(-m);
    } else {
      DigitsRoundTrip(m);
    }
  }

  /** Formatting and parsing are inverse: every 32-bit integer survives the
      trip through its text. */
  lemma FormatParseRoundTrip(n: Int32)
    ensures TryParse(Some(Format(n))) == Some(n)
  {
    var s := Format(n);
    StripLeavesFramedText(s);
    ParseSignedOfFormat(n);
  }
}
