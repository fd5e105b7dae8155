/** The small Java library routines on text that the modelled code leans
    on, given definitions of their own so that the model can reason about
    them: `BooleanUtils.toBoolean(String)`, `Integer.parseInt`,
    `String.valueOf(int)` and `Collectors.joining`. */
module JavaText {
  import opened Common

  const MinInt: int := -0x8000_0000
  const MaxInt: int := 0x7FFF_FFFF

  predicate IsInt32(n: int) {
    MinInt <= n <= MaxInt
  }

  // ---------------------------------------------------------------------
  // BooleanUtils.toBoolean(String)

  function LowerAscii(c: char): char {
    if 'A' <= c <= 'Z' then (c as int + 32) as char else c
  }

  function LowerAsciiString(s: string): (r: string)
    ensures |r| == |s|
  {
    seq(|s|, i requires 0 <= i < |s| => LowerAscii(s[i]))
  }

  /** `BooleanUtils.toBoolean(String)`: true exactly for "true", "on", "yes",
      "y" and "t", ignoring ASCII case; `null` is false. */
  function ToBoolean(s: Option<string>): (r: bool)
    ensures r ==> s.Some? && 1 <= |s.value| <= 4
  {
    match s
    case None => false
    case Some(t) => LowerAsciiString(t) in {"true", "on", "yes", "y", "t"}
  }

  lemma ToBooleanExamples()
    ensures ToBoolean(Some("TRUE")) && ToBoolean(Some("Yes")) && ToBoolean(Some("t"))
    ensures !ToBoolean(Some("false")) && !ToBoolean(Some("1")) && !ToBoolean(None)
  {
    assert LowerAsciiString("TRUE") == "true";
    assert LowerAsciiString("Yes") == "yes";
    assert LowerAsciiString("t") == "t";
    assert LowerAsciiString("1") == "1";
  }

  // ---------------------------------------------------------------------
  // Decimal digits

  predicate IsDigit(c: char) {
    '0' <= c <= '9'
  }

  predicate AllDigits(s: string) {
    forall i :: 0 <= i < |s| ==> IsDigit(s[i])
  }

  function DigitChar(d: nat): (c: char)
    requires d < 10
    ensures IsDigit(c)
  {
    ('0' as int + d) as char
  }

  function DigitValue(c: char): (d: nat)
    requires IsDigit(c)
    ensures d < 10
  {
    c as int - '0' as int
  }

  /** The value of a non-empty string of decimal digits, read most
      significant digit first. */
  function DigitsValue(s: string): (v: nat)
    requires |s| > 0 && AllDigits(s)
    decreases |s|
  {
    if |s| == 1 then DigitValue(s[0])
    else DigitsValue(s[..|s| - 1]) * 10 + DigitValue(s[|s| - 1])
  }

  /** The shortest decimal digit string of a natural number. */
  function Digits(n: nat): (s: string)
    ensures |s| > 0 && AllDigits(s)
    decreases n
  {
    if n < 10 then [DigitChar(n)] else Digits(n / 10) + [DigitChar(n % 10)]
  }

  /** `String.valueOf(int)`: an optional minus sign followed by the digits. */
  function Decimal(n: int): (s: string)
    ensures |s| > 0
  {
    if n < 0 then "-" + Digits(-n) else Digits(n)
  }

  // ---------------------------------------------------------------------
  // Integer.parseInt(String)

  function SignedValue(negative: bool, digits: string): (r: Option<int>)
    requires |digits| > 0 && AllDigits(digits)
  {
    var magnitude: int := DigitsValue(digits);
    var v := if negative then -magnitude else magnitude;
    if IsInt32(v) then Some(v) else None
  }

  /** `Integer.parseInt(String)`, with `None` standing for the
      `NumberFormatException`: an optional '+' or '-' followed by one or more
      decimal digits whose value fits in 32 bits. */
  function ParseInt(s: Option<string>): (r: Option<int>)
    ensures r.Some? ==> IsInt32(r.value)
    ensures r.Some? ==> s.Some? && |s.value| > 0
  {
    match s
    case None => None
    case Some(t) =>
      if |t| == 0 then None
      else if t[0] == '-' || t[0] == '+' then
        if |t| > 1 && AllDigits(t[1..]) then SignedValue(t[0] == '-', t[1..]) else None
      else if AllDigits(t) then SignedValue(false, t)
      else None
  }

  lemma {:induction false} DigitsRoundTrip(n: nat)
    ensures DigitsValue(Digits(n)) == n
    decreases n
  {
    if n >= 10 {
      var s := Digits(n);
      assert s[..|s| - 1] == Digits(n / 10);
      DigitsRoundTrip(n / 10);
    }
  }

  /** Rendering a 32-bit integer and parsing the text back gives the integer. */
  lemma ParseDecimal(n: int)
    requires IsInt32(n)
    ensures ParseInt(Some(Decimal(n))) == Some(n)
  {
    DigitsRoundTrip(if n < 0 then -n else n);
    if n < 0 {
      assert Decimal(n)[1..] == Digits(-n);
    } else {
      assert Decimal(n)[0] != '-' && Decimal(n)[0] != '+' by {
        assert IsDigit(Digits(n)[0]);
      }
    }
  }

  // ---------------------------------------------------------------------
  // Collectors.joining(separator)

  /** The strings of `parts` in order, with `sep` between consecutive ones. */
  function Join(parts: seq<string>, sep: string): (r: string)
    ensures |parts| == 0 ==> r == ""
    ensures |parts| == 1 ==> r == parts[0]
    decreases |parts|
  {
    if |parts| == 0 then ""
    else if |parts| == 1 then parts[0]
    else parts[0] + sep + Join(parts[1..], sep)
  }
}
