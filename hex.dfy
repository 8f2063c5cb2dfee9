/**
  Hexadecimal rendering of byte strings, as Node's `digest("hex")` and
  `Buffer.toString("hex")` produce it (lower case), and `toUpperCase()` on the
  result.
*/
module Hex {
  import opened Wrappers

  newtype byte = b: int | 0 <= b < 256

  predicate IsLowerHexDigit(c: char) { '0' <= c <= '9' || 'a' <= c <= 'f' }
  predicate IsUpperHexDigit(c: char) { '0' <= c <= '9' || 'A' <= c <= 'F' }

  /** The lower-case digit of a nibble. */
  function LowerDigit(n: nat): (c: char)
    requires n < 16
    ensures IsLowerHexDigit(c)
  {
    if n < 10 then ('0' as int + n) as char else ('a' as int + n - 10) as char
  }

  function HexPair(b: byte): string {
    [LowerDigit(b as int / 16), LowerDigit(b as int % 16)]
  }

  /** Two lower-case hex digits per byte, most significant nibble first. */
  function HexLower(bs: seq<byte>): (s: string)
    ensures |s| == 2 * |bs|
  {
    if bs == [] then "" else HexPair(bs[0]) + HexLower(bs[1..])
  }

  /** `String.prototype.toUpperCase` restricted to what hex digits need: a-z become A-Z. */
  function ToUpperAscii(s: string): (t: string)
    ensures |t| == |s|
    ensures forall i :: 0 <= i < |s| ==> t[i] == (if 'a' <= s[i] <= 'z' then (s[i] as int - 32) as char else s[i])
  {
    if s == [] then "" else [if 'a' <= s[0] <= 'z' then (s[0] as int - 32) as char else s[0]] + ToUpperAscii(s[1..])
  }

  /** The value of a hex digit of either case, or 16 when `c` is not one. */
  function NibbleValue(c: char): (v: nat)
    ensures v <= 16
  {
    if '0' <= c <= '9' then c as int - '0' as int
    else if 'a' <= c <= 'f' then c as int - 'a' as int + 10
    else if 'A' <= c <= 'F' then c as int - 'A' as int + 10
    else 16
  }

  /** Reads a string of hex digit pairs back into bytes. */
  function DecodeHex(s: string): Option<seq<byte>>
    decreases |s|
  {
    if s == [] then Some([])
    else if |s| == 1 || NibbleValue(s[0]) == 16 || NibbleValue(s[1]) == 16 then None
    else
      match DecodeHex(s[2..])
      case None => None
      case Some(rest) => Some([(NibbleValue(s[0]) * 16 + NibbleValue(s[1])) as byte] + rest)
  }

  lemma {:induction false} HexLowerDigits(bs: seq<byte>)
    ensures forall i :: 0 <= i < |HexLower(bs)| ==> IsLowerHexDigit(HexLower(bs)[i])
  {
    if bs != [] {
      HexLowerDigits(bs[1..]);
      var s := HexLower(bs);
      assert s == HexPair(bs[0]) + HexLower(bs[1..]);
      forall i | 0 <= i < |s| ensures IsLowerHexDigit(s[i]) {
        if i >= 2 { assert s[i] == HexLower(bs[1..])[i - 2]; }
      }
    }
  }

  /** An upper-cased hex rendering of `n` bytes: `2n` characters, each one of 0-9 A-F. */
  lemma UpperHexShape(bs: seq<byte>)
    ensures |ToUpperAscii(HexLower(bs))| == 2 * |bs|
    ensures forall i :: 0 <= i < 2 * |bs| ==> IsUpperHexDigit(ToUpperAscii(HexLower(bs))[i])
  {
    HexLowerDigits(bs);
  }

  lemma {:induction false} DecodeHexLower(bs: seq<byte>)
    ensures DecodeHex(HexLower(bs)) == Some(bs)
  {
    if bs != [] {
      DecodeHexLower(bs[1..]);
      var s := HexLower(bs);
      assert s[2..] == HexLower(bs[1..]);
      assert NibbleValue(s[0]) == bs[0] as int / 16;
      assert NibbleValue(s[1]) == bs[0] as int % 16;
      assert [(NibbleValue(s[0]) * 16 + NibbleValue(s[1])) as byte] + bs[1..] == bs;
    }
  }

  lemma {:induction false} DecodeUpper(s: string)
    ensures DecodeHex(ToUpperAscii(s)) == DecodeHex(s)
    decreases |s|
  {
    if |s| >= 2 {
      DecodeUpper(s[2..]);
      assert ToUpperAscii(s)[2..] == ToUpperAscii(s[2..]);
    }
  }

  /** The upper-cased digest still determines the bytes: distinct byte strings get distinct codes. */
  lemma DecodeUpperHex(bs: seq<byte>)
    ensures DecodeHex(ToUpperAscii(HexLower(bs))) == Some(bs)
  {
    DecodeUpper(HexLower(bs));
    DecodeHexLower(bs);
  }
}
