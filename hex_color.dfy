/** `#RRGGBB` colours: an 8-bit RGBA colour, opaque black by default, and
    the decoding of a seven-character hex string into it. */
module HexColor {

  /** An unsigned 8-bit channel. */
  newtype Byte = x: int | 0 <= x < 256

  datatype Color = Color(r: Byte, g: Byte, b: Byte, a: Byte)

  /** The colour a default-constructed `Color` holds. */
  const DefaultColor: Color := Color(0, 0, 0, 255)

  predicate IsHexDigit(c: char) {
    ('0' <= c <= '9') || ('a' <= c <= 'f') || ('A' <= c <= 'F')
  }

  function HexValue(c: char): (v: nat)
    requires IsHexDigit(c)
    ensures v < 16
  {
    if '0' <= c <= '9' then (c - '0') as nat
    else if 'a' <= c <= 'f' then (c - 'a') as nat + 10
    else (c - 'A') as nat + 10
  }

  /** Two hex digits read in base 16, most significant first. */
  function HexByte(hi: char, lo: char): (v: Byte)
    requires IsHexDigit(hi) && IsHexDigit(lo)
    ensures v as int == 16 * HexValue(hi) + HexValue(lo)
  {
    (16 * HexValue(hi) + HexValue(lo)) as Byte
  }

  /** The strings the decoder is asked to read a colour from. */
  predicate IsHexColor(hex: string) {
    |hex| == 7 && hex[0] == '#'
  }

  /** What the decoder needs: in a string of the `#RRGGBB` shape, the six
      characters after '#' are hex digits. */
  predicate Decodable(hex: string) {
    IsHexColor(hex) ==> forall i :: 1 <= i < 7 ==> IsHexDigit(hex[i])
  }

  /** `parseHexColor`. */
  function ParseHexColor(hex: string): (c: Color)
    requires Decodable(hex)
    ensures c.a == 255
    ensures !IsHexColor(hex) ==> c == DefaultColor
  {
    if IsHexColor(hex) then
      Color(HexByte(hex[1], hex[2]), HexByte(hex[3], hex[4]), HexByte(hex[5], hex[6]), 255)
    else DefaultColor
  }

  /** Each channel is the base-16 value of its own two characters. */
  lemma ParseHexChannels(hex: string)
    requires Decodable(hex) && IsHexColor(hex)
    ensures ParseHexColor(hex).r as int == 16 * HexValue(hex[1]) + HexValue(hex[2])
    ensures ParseHexColor(hex).g as int == 16 * HexValue(hex[3]) + HexValue(hex[4])
    ensures ParseHexColor(hex).b as int == 16 * HexValue(hex[5]) + HexValue(hex[6])
  {
  }

  /** A channel depends on its two characters only: strings that agree on
      them decode to the same channel. */
  lemma RedDependsOnItsDigits(h1: string, h2: string)
    requires Decodable(h1) && IsHexColor(h1) && Decodable(h2) && IsHexColor(h2)
    requires h1[1] == h2[1] && h1[2] == h2[2]
    ensures ParseHexColor(h1).r == ParseHexColor(h2).r
  {
  }

  lemma GreenDependsOnItsDigits(h1: string, h2: string)
    requires Decodable(h1) && IsHexColor(h1) && Decodable(h2) && IsHexColor(h2)
    requires h1[3] == h2[3] && h1[4] == h2[4]
    ensures ParseHexColor(h1).g == ParseHexColor(h2).g
  {
  }

  lemma BlueDependsOnItsDigits(h1: string, h2: string)
    requires Decodable(h1) && IsHexColor(h1) && Decodable(h2) && IsHexColor(h2)
    requires h1[5] == h2[5] && h1[6] == h2[6]
    ensures ParseHexColor(h1).b == ParseHexColor(h2).b
  {
  }

  // ---------------------------------------------------------------------
  // Writing a colour as `#rrggbb`, and reading it back.

  function HexDigit(v: nat): (c: char)
    requires v < 16
    ensures IsHexDigit(c) && HexValue(c) == v
  {
    if v < 10 then '0' + v as char else 'a' + (v - 10) as char
  }

  function HexPair(v: Byte): (s: string)
    ensures |s| == 2 && IsHexDigit(s[0]) && IsHexDigit(s[1])
    ensures HexByte(s[0], s[1]) == v
  {
    [HexDigit(v as nat / 16), HexDigit(v as nat % 16)]
  }

  function FormatHexColor(c: Color): string {
    "#" + HexPair(c.r) + HexPair(c.g) + HexPair(c.b)
  }

  /** Every colour written as `#rrggbb` reads back with its channels and
      full opacity. */
  lemma ParseFormatHexColor(c: Color)
    ensures Decodable(FormatHexColor(c)) && IsHexColor(FormatHexColor(c))
    ensures ParseHexColor(FormatHexColor(c)) == c.(a := 255)
  {
  }
}
