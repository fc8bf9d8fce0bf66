/**
 * `hexToRGB` (wiz.go): a colour written as six hexadecimal digits, with or
 * without one leading '#', read as three channel bytes.
 */
module HexColor {
  import opened Results

  type byte = x: int | 0 <= x < 256

  datatype Rgb = Rgb(r: byte, g: byte, b: byte)

  /** "invalid hex" from the length guard, or encoding/hex's InvalidByteError for the first bad character. */
  datatype HexError = InvalidLength | InvalidByte(c: char)

  predicate IsHexDigit(c: char) { '0' <= c <= '9' || 'a' <= c <= 'f' || 'A' <= c <= 'F' }

  predicate AllHex(s: string) { forall i :: 0 <= i < |s| ==> IsHexDigit(s[i]) }

  function HexValue(c: char): (v: nat)
    requires IsHexDigit(c)
    ensures v < 16
  {
    if '0' <= c <= '9' then (c as int) - ('0' as int)
    else if 'a' <= c <= 'f' then (c as int) - ('a' as int) + 10
    else (c as int) - ('A' as int) + 10
  }

  /** The colour syntax hexToRGB accepts, as the pattern ^#?[0-9A-Fa-f]{6}$. */
  predicate IsColorLiteral(h: string)
  {
    || (|h| == 6 && AllHex(h))
    || (|h| == 7 && h[0] == '#' && AllHex(h[1..]))
  }

  /** strings.TrimPrefix(h, "#"): at most one leading '#' is removed. */
  function TrimHash(h: string): string
  {
    if |h| > 0 && h[0] == '#' then h[1..] else h
  }

  /** Index of the first character that is not a hexadecimal digit, or |s|. */
  function FirstNonHex(s: string): (k: nat)
    ensures k <= |s|
    ensures forall i :: 0 <= i < k ==> IsHexDigit(s[i])
    ensures k < |s| ==> !IsHexDigit(s[k])
  {
    if s == [] then 0 else if !IsHexDigit(s[0]) then 0 else 1 + FirstNonHex(s[1..])
  }

  /** One output byte of hex.DecodeString: the high nibble is checked before the low one. */
  function DecodePair(hi: char, lo: char): Result<byte, HexError>
  {
    if !IsHexDigit(hi) then Err(InvalidByte(hi))
    else if !IsHexDigit(lo) then Err(InvalidByte(lo))
    else Ok(16 * HexValue(hi) + HexValue(lo))
  }

  /** `hexToRGB`: trim one '#', insist on six characters, decode three pairs in order. */
  function HexToRGB(h: string): (r: Result<Rgb, HexError>)
    ensures r.Ok? <==> IsColorLiteral(h)
  {
    var t := TrimHash(h);
    if |t| != 6 then Err(InvalidLength)
    else
      match DecodePair(t[0], t[1])
      case Err(e) => Err(e)
      case Ok(r) =>
        match DecodePair(t[2], t[3])
        case Err(e) => Err(e)
        case Ok(g) =>
          match DecodePair(t[4], t[5])
          case Err(e) => Err(e)
          case Ok(b) => Ok(Rgb(r, g, b))
  }

  /** The length guard: anything but six characters after the optional '#' is "invalid hex". */
  lemma HexToRGBLength(h: string)
    ensures |TrimHash(h)| != 6 <==> HexToRGB(h) == Err(InvalidLength)
  {
  }

  /** An accepted colour reads its last six characters as three bytes, high nibble first. */
  lemma HexToRGBValue(h: string)
    requires IsColorLiteral(h)
    ensures var d := h[|h| - 6..];
      HexToRGB(h) == Ok(Rgb(16 * HexValue(d[0]) + HexValue(d[1]),
                            16 * HexValue(d[2]) + HexValue(d[3]),
                            16 * HexValue(d[4]) + HexValue(d[5])))
  {
    assert TrimHash(h) == h[|h| - 6..];
  }

  /** Six characters that are not all hexadecimal fail on the first bad one, as encoding/hex reports it. */
  lemma HexToRGBFirstBadByte(h: string)
    requires |TrimHash(h)| == 6 && !AllHex(TrimHash(h))
    ensures var t := TrimHash(h);
      HexToRGB(h) == Err(InvalidByte(t[FirstNonHex(t)]))
  {
    var t := TrimHash(h);
    var k := FirstNonHex(t);
    assert k < 6;
    assert forall i :: 0 <= i < k ==> IsHexDigit(t[i]);
  }

  function HexDigit(v: nat, upper: bool): (c: char)
    requires v < 16
  {
    if v < 10 then (('0' as int) + v) as char
    else if upper then (('A' as int) + v - 10) as char
    else (('a' as int) + v - 10) as char
  }

  /** A byte as two hexadecimal digits, high nibble first. */
  function FormatByte(b: byte, upper: bool): string
  {
    [HexDigit(b / 16, upper), HexDigit(b % 16, upper)]
  }

  /** A colour written the way the palette and users write it: six digits, optionally after '#'. */
  function FormatRgb(c: Rgb, upper: bool, hash: bool): string
  {
    (if hash then "#" else "") + FormatByte(c.r, upper) + FormatByte(c.g, upper) + FormatByte(c.b, upper)
  }

  lemma HexDigitValue(v: nat, upper: bool)
    requires v < 16
    ensures IsHexDigit(HexDigit(v, upper)) && HexValue(HexDigit(v, upper)) == v
  {
  }

  /** Every colour written with or without '#', in either case, reads back as itself. */
  lemma {:induction false} HexRoundTrip(c: Rgb, upper: bool, hash: bool)
    ensures HexToRGB(FormatRgb(c, upper, hash)) == Ok(c)
  {
    var s := FormatRgb(c, upper, hash);
    var d := FormatByte(c.r, upper) + FormatByte(c.g, upper) + FormatByte(c.b, upper);
    HexDigitValue(c.r / 16, upper);
    HexDigitValue(c.r % 16, upper);
    HexDigitValue(c.g / 16, upper);
    HexDigitValue(c.g % 16, upper);
    HexDigitValue(c.b / 16, upper);
    HexDigitValue(c.b % 16, upper);
    assert s[|s| - 6..] == d;
    assert AllHex(d);
    assert IsColorLiteral(s) by {
      if hash {
        assert s[1..] == d;
      } else {
        assert s == d;
      }
    }
    HexToRGBValue(s);
  }
}
