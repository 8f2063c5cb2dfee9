/**
  The few JavaScript semantics the route handlers depend on: truthiness of a
  decoded JSON field, `String(v)`, and `Number.parseInt` (ECMAScript 2024,
  section 19.2.5) with its radix left undefined.  JavaScript numbers are
  modelled as integers only; a NaN result is `None`.
*/
module JsValues {
  import opened Wrappers

  /** A scalar as it arrives in a decoded JSON body or query string. */
  datatype Value = Undefined | Null | Num(n: int) | Str(s: string)

  /** `!!v`: false for undefined, null, 0 and the empty string. */
  predicate Truthy(v: Value) {
    match v
    case Undefined => false
    case Null => false
    case Num(n) => n != 0
    case Str(s) => s != ""
  }

  /** `String(v)`, as used by template literals and query filters. */
  function ToText(v: Value): string {
    match v
    case Undefined => "undefined"
    case Null => "null"
    case Num(n) => DecimalString(n)
    case Str(s) => s
  }

  /** `Number.parseInt(v)`: the argument is first converted to a string. */
  function ToInt(v: Value): Option<int> {
    ParseInt(ToText(v))
  }

  predicate IsDecimalDigit(c: char) { '0' <= c <= '9' }

  function DigitChar(d: nat): (c: char)
    requires d < 10
    ensures IsDecimalDigit(c)
  {
    ('0' as int + d) as char
  }

  /** The shortest decimal numeral of a natural number. */
  function Digits(n: nat): (s: string)
    ensures |s| >= 1
    ensures forall i :: 0 <= i < |s| ==> IsDecimalDigit(s[i])
    ensures s[0] == '0' ==> n == 0 && |s| == 1
    decreases n
  {
    if n < 10 then [DigitChar(n)] else Digits(n / 10) + [DigitChar(n % 10)]
  }

  /** `String(n)` for an integer-valued number. */
  function DecimalString(n: int): (s: string)
    ensures |s| >= 1
  {
    if n < 0 then "-" + Digits(-n) else Digits(n)
  }

  /** StrWhiteSpaceChar: WhiteSpace and LineTerminator code points. */
  predicate IsWhiteSpace(c: char) {
    var k := c as int;
    k == 0x09 || k == 0x0A || k == 0x0B || k == 0x0C || k == 0x0D || k == 0x20 ||
    k == 0xA0 || k == 0x1680 || (0x2000 <= k <= 0x200A) || k == 0x2028 || k == 0x2029 ||
    k == 0x202F || k == 0x205F || k == 0x3000 || k == 0xFEFF
  }

  /** Leading white space removed. */
  function TrimStart(s: string): (t: string)
    ensures |t| <= |s| && t == s[|s| - |t|..]
    ensures t == [] || !IsWhiteSpace(t[0])
  {
    if |s| > 0 && IsWhiteSpace(s[0]) then TrimStart(s[1..]) else s
  }

  /** The value of `c` as a base-36 digit, or 36 when it is not one. */
  function DigitValue(c: char): (d: nat)
    ensures d <= 36
  {
    if '0' <= c <= '9' then c as int - '0' as int
    else if 'a' <= c <= 'z' then c as int - 'a' as int + 10
    else if 'A' <= c <= 'Z' then c as int - 'A' as int + 10
    else 36
  }

  /** Length of the longest prefix of `s` made of digits of the radix. */
  function DigitRun(s: string, radix: nat): (k: nat)
    ensures k <= |s|
    ensures forall i :: 0 <= i < k ==> DigitValue(s[i]) < radix
    ensures k < |s| ==> DigitValue(s[k]) >= radix
  {
    if |s| > 0 && DigitValue(s[0]) < radix then 1 + DigitRun(s[1..], radix) else 0
  }

  /** The number that a string of digits denotes in the radix, most significant first. */
  function DigitsValue(s: string, radix: nat): nat {
    if s == [] then 0 else DigitsValue(s[..|s| - 1], radix) * radix + DigitValue(s[|s| - 1])
  }

  /** The digits at the start of `s` read in the radix; NaN when there are none. */
  function ParseRadix(s: string, radix: nat): Option<nat> {
    var k := DigitRun(s, radix);
    if k == 0 then None else Some(DigitsValue(s[..k], radix))
  }

  /** An unsigned numeral: hexadecimal after a `0x`/`0X` prefix, decimal otherwise. */
  function ParseMagnitude(u: string): Option<nat> {
    if |u| >= 2 && u[0] == '0' && (u[1] == 'x' || u[1] == 'X') then ParseRadix(u[2..], 16)
    else ParseRadix(u, 10)
  }

  function Negate(r: Option<nat>): Option<int> {
    match r
    case None => None
    case Some(m) => var negative: int := -(m as int); Some(negative)
  }

  /**
    `Number.parseInt(s)` with no radix: skip leading white space, take an
    optional sign, then read the magnitude up to the first character that is
    not a digit.  No digit at all gives NaN.
  */
  function ParseInt(s: string): Option<int> {
    var t := TrimStart(s);
    if |t| > 0 && t[0] == '-' then Negate(ParseMagnitude(t[1..]))
    else if |t| > 0 && t[0] == '+' then ParseMagnitude(t[1..])
    else ParseMagnitude(t)
  }

  lemma {:induction false} DigitsValueOfDigits(n: nat)
    ensures DigitsValue(Digits(n), 10) == n
    decreases n
  {
    if n >= 10 {
      var s := Digits(n);
      assert s[..|s| - 1] == Digits(n / 10);
      DigitsValueOfDigits(n / 10);
    }
  }

  lemma {:induction false} DigitRunOfDigits(s: string)
    requires forall i :: 0 <= i < |s| ==> IsDecimalDigit(s[i])
    ensures DigitRun(s, 10) == |s|
  {
    if |s| > 0 {
      DigitRunOfDigits(s[1..]);
    }
  }

  lemma ParseMagnitudeOfDigits(m: nat)
    ensures ParseMagnitude(Digits(m)) == Some(m)
  {
    var d := Digits(m);
    DigitRunOfDigits(d);
    DigitsValueOfDigits(m);
    assert d[..|d|] == d;
    assert ParseRadix(d, 10) == Some(m);
  }

  lemma TrimStartNoSpace(s: string)
    requires |s| > 0 && (s[0] == '-' || IsDecimalDigit(s[0]))
    ensures TrimStart(s) == s
  {
  }

  /** `Number.parseInt(String(n)) == n` for every integer-valued number. */
  lemma ParseIntDecimalString(n: int)
    ensures ParseInt(DecimalString(n)) == Some(n)
  {
    var s := DecimalString(n);
    TrimStartNoSpace(s);
    if n < 0 {
      ParseMagnitudeOfDigits(-n);
      assert s[1..] == Digits(-n);
    } else {
      ParseMagnitudeOfDigits(n);
    }
  }

  /** `Number.parseInt(v)` recovers the number a JSON number carries. */
  lemma ToIntNum(n: int)
    ensures ToInt(Num(n)) == Some(n)
  {
    ParseIntDecimalString(n);
  }

  /** A string that starts with a letter, lower- or upper-case, is NaN. */
  lemma ParseIntLetter(s: string)
    requires |s| > 0 && ('a' <= s[0] <= 'z' || 'A' <= s[0] <= 'Z')
    ensures ParseInt(s) == None
  {
    assert !IsWhiteSpace(s[0]);
    assert TrimStart(s) == s;
    assert DigitRun(s, 10) == 0;
  }

  /** `undefined` and `null` are not numbers: looking them up as ids fails. */
  lemma ToIntAbsent()
    ensures ToInt(Undefined) == None && ToInt(Null) == None
  {
    ParseIntLetter("undefined");
    ParseIntLetter("null");
  }
}
