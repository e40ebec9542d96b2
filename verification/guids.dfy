/** `System.Guid` as the 32 hexadecimal digits of its text form, with
    `Guid.ToString()` (the "D" format) and `Guid.Parse` / `Guid.TryParse`. */
module Guids {
  import opened Wrappers
  import Text

  type Nibble = x: int | 0 <= x < 16

  /** The digits in the order the "D" format prints them. */
  type Guid = s: seq<Nibble> | |s| == 32 witness seq(32, i => 0)

  /** `Guid.Empty`, the all-zero identifier. */
  const Empty: Guid := [0, 0, 0, 0, 0, 0, 0, 0, 0, 0, 0, 0, 0, 0, 0, 0, 0, 0, 0, 0, 0, 0, 0, 0, 0, 0, 0, 0, 0, 0, 0, 0]

  function HexChar(d: Nibble): char {
    if d < 10 then ('0' as int + d) as char else ('a' as int + d - 10) as char
  }

  predicate IsHex(c: char) {
    '0' <= c <= '9' || 'a' <= c <= 'f' || 'A' <= c <= 'F'
  }

  function HexValue(c: char): Nibble
    requires IsHex(c)
  {
    if '0' <= c <= '9' then c as int - '0' as int
    else if 'a' <= c <= 'f' then c as int - 'a' as int + 10
    else c as int - 'A' as int + 10
  }

  lemma HexCharValue(d: Nibble)
    ensures IsHex(HexChar(d)) && HexValue(HexChar(d)) == d
  {
  }

  /** Positions of the four hyphens in the "D" format. */
  predicate IsDashPosition(i: int) {
    i == 8 || i == 13 || i == 18 || i == 23
  }

  /** Where the `j`-th digit sits in the "D" format. */
  function DigitPosition(j: int): (p: int)
    requires 0 <= j < 32
    ensures 0 <= p < 36 && !IsDashPosition(p)
  {
    if j < 8 then j else if j < 12 then j + 1 else if j < 16 then j + 2 else if j < 20 then j + 3 else j + 4
  }

  /** Which digit the non-hyphen position `i` of the "D" format shows. */
  function DigitAt(i: int): (j: int)
    requires 0 <= i < 36 && !IsDashPosition(i)
    ensures 0 <= j < 32 && DigitPosition(j) == i
  {
    if i < 8 then i else if i < 13 then i - 1 else if i < 18 then i - 2 else if i < 23 then i - 3 else i - 4
  }

  /** `Guid.ToString()`: "xxxxxxxx-xxxx-xxxx-xxxx-xxxxxxxxxxxx" in lower case. */
  function Format(g: Guid): (s: string)
    ensures |s| == 36
    ensures forall i :: 0 <= i < 36 && IsDashPosition(i) ==> s[i] == '-'
    ensures forall j :: 0 <= j < 32 ==> s[DigitPosition(j)] == HexChar(g[j])
  {
    seq(36, i requires 0 <= i < 36 => if IsDashPosition(i) then '-' else HexChar(g[DigitAt(i)]))
  }

  /** The text is in "D" format: hyphens where they belong, hex digits elsewhere. */
  predicate IsDFormat(t: string) {
    && |t| == 36
    && (forall i :: 0 <= i < 36 && IsDashPosition(i) ==> t[i] == '-')
    && (forall j :: 0 <= j < 32 ==> IsHex(t[DigitPosition(j)]))
  }

  predicate IsNFormat(t: string) {
    |t| == 32 && forall i :: 0 <= i < 32 ==> IsHex(t[i])
  }

  /** The "B" format `{D}` and the "P" format `(D)`. */
  predicate IsBracedFormat(t: string) {
    && |t| == 38
    && ((t[0] == '{' && t[37] == '}') || (t[0] == '(' && t[37] == ')'))
    && IsDFormat(t[1..37])
  }

  function DecodeD(t: string): Guid
    requires IsDFormat(t)
  {
    seq(32, j requires 0 <= j < 32 => HexValue(t[DigitPosition(j)]))
  }

  function DecodeN(t: string): Guid
    requires IsNFormat(t)
  {
    seq(32, j requires 0 <= j < 32 => HexValue(t[j]))
  }

  /** `Guid.Parse(s)`: null throws `ArgumentNullException`; after trimming
      surrounding whitespace the text must be in "N", "D", "B" or "P" format,
      with digits in either case, or `FormatException` is thrown. */
  function Parse(s: Option<string>): (r: Result<Guid>)
    ensures s.None? ==> r == Err(ArgumentNull)
    ensures r.Err? ==> r.fault == ArgumentNull || r.fault == BadFormat
  {
    if s.None? then Err(ArgumentNull)
    else
      var t := Text.Trim(s.value);
      if IsNFormat(t) then Ok(DecodeN(t))
      else if IsDFormat(t) then Ok(DecodeD(t))
      else if IsBracedFormat(t) then Ok(DecodeD(t[1..37]))
      else Err(BadFormat)
  }

  /** `Guid.TryParse(s, out g)`: the same acceptance as `Parse`, without throwing. */
  function TryParse(s: Option<string>): (r: Option<Guid>)
    ensures r.Some? <==> Parse(s).Ok?
    ensures r.Some? ==> r.value == Parse(s).value
  {
    match Parse(s)
    case Ok(g) => Some(g)
    case Err(_) => None
  }

  /** `Guid.Parse` reads back every identifier `Guid.ToString()` prints. */
  lemma {:induction false} FormatParseRoundTrip(g: Guid)
    ensures Parse(Some(Format(g))) == Ok(g)
  {
    var s := Format(g);
    assert s[0] == HexChar(g[0]) && s[35] == HexChar(g[31]);
    Text.TrimFramed(s);
    assert IsDFormat(s) by {
      forall j | 0 <= j < 32
        ensures IsHex(s[DigitPosition(j)])
      {
        HexCharValue(g[j]);
      }
    }
    var d := DecodeD(s);
    forall j | 0 <= j < 32
      ensures d[j] == g[j]
    {
      HexCharValue(g[j]);
    }
    assert d == g;
  }

  /** Different identifiers print differently. */
  lemma FormatInjective(g: Guid, h: Guid)
    requires Format(g) == Format(h)
    ensures g == h
  {
    FormatParseRoundTrip(g);
    FormatParseRoundTrip(h);
  }
}
