/**
 * Fixed-width integers as the C code uses them: `uint8_t` bytes, `uint16_t`
 * addresses, the `(char)` cast of a displacement byte, the little-endian
 * operand fetch and the `%.2X` / `%.4X` hex rendering.
 */
module Bits {
  import opened Wrappers

  type Byte = x: int | 0 <= x < 0x100
  type Word = x: int | 0 <= x < 0x1_0000

  /** Storing an int into a `uint16_t`: the value modulo 2^16. */
  function Wrap16(x: int): (w: Word)
    ensures (w - x) % 0x1_0000 == 0
    ensures 0 <= x < 0x1_0000 ==> w == x
  {
    x % 0x1_0000
  }

  /** Returning an int as a `uint32_t`: the value modulo 2^32. */
  function Wrap32(x: int): (w: nat)
    ensures w < 0x1_0000_0000
    ensures (w - x) % 0x1_0000_0000 == 0
    ensures 0 <= x < 0x1_0000_0000 ==> w == x
  {
    x % 0x1_0000_0000
  }

  /** The `(char)` cast of a byte, on a platform whose plain `char` is signed. */
  function Signed(b: Byte): (v: int)
    ensures -0x80 <= v < 0x80
    ensures (v - b) % 0x100 == 0
  {
    if b < 0x80 then b else b - 0x100
  }

  /** `lo | (hi << 8)`: the two operand bytes of a 16-bit immediate. */
  function LittleEndian(lo: Byte, hi: Byte): (w: Word)
    ensures w % 0x100 == lo
    ensures w / 0x100 == hi
  {
    lo + hi * 0x100
  }

  const HexDigits: string := "0123456789ABCDEF"

  function Pow16(n: nat): (p: nat)
    ensures p >= 1
  {
    if n == 0 then 1 else 16 * Pow16(n - 1)
  }

  /** `%.<width>X` of a value that fits in `width` digits: upper case, zero padded. */
  function Hex(v: nat, width: nat): (s: string)
    requires v < Pow16(width)
    ensures |s| == width
    decreases width
  {
    if width == 0 then "" else Hex(v / 16, width - 1) + [HexDigits[v % 16]]
  }

  /** The value of one upper-case hex digit, if `c` is one. */
  function DigitValue(c: char): (d: Option<nat>)
    ensures d.Some? ==> d.value < 16
  {
    if '0' <= c <= '9' then Some(c as int - '0' as int)
    else if 'A' <= c <= 'F' then Some(c as int - 'A' as int + 10)
    else None
  }

  /** `DigitValue` accepts exactly the sixteen digits and inverts the digit table. */
  lemma DigitValueSpec(c: char)
    ensures DigitValue(c).Some? <==> c in HexDigits
    ensures DigitValue(c).Some? ==> HexDigits[DigitValue(c).value] == c
  {
  }

  /** Reads a string of upper-case hex digits back into its value. */
  function ParseHex(s: string): Option<nat>
  {
    if |s| == 0 then Some(0)
    else
      match (ParseHex(s[..|s| - 1]), DigitValue(s[|s| - 1]))
      case (Some(high), Some(low)) => Some(16 * high + low)
      case _ => None
  }

  /** Rendering in hex loses nothing: parsing the digits gives the value back. */
  lemma {:induction false} HexRoundTrip(v: nat, width: nat)
    requires v < Pow16(width)
    ensures ParseHex(Hex(v, width)) == Some(v)
    decreases width
  {
    if width > 0 {
      var s := Hex(v, width);
      HexStep(v, width);
      assert s[..|s| - 1] == Hex(v / 16, width - 1);
      HexRoundTrip(v / 16, width - 1);
      DigitRoundTrip(v % 16);
      ParseHexStep(s, v / 16, v % 16);
    }
  }

  /** Parsing reads the last digit as the lowest. */
  lemma ParseHexStep(s: string, high: nat, low: nat)
    requires |s| > 0
    requires ParseHex(s[..|s| - 1]) == Some(high) && DigitValue(s[|s| - 1]) == Some(low)
    ensures ParseHex(s) == Some(16 * high + low)
  {
  }

  /** One step of `Hex`: the leading digits of `v / 16`, then the digit of `v % 16`. */
  lemma HexStep(v: nat, width: nat)
    requires 0 < width && v < Pow16(width)
    ensures v / 16 < Pow16(width - 1) && v == 16 * (v / 16) + v % 16
    ensures Hex(v, width) == Hex(v / 16, width - 1) + [HexDigits[v % 16]]
  {
  }

  lemma DigitRoundTrip(k: nat)
    requires k < 16
    ensures DigitValue(HexDigits[k]) == Some(k)
  {
  }

  /** Distinct values render as distinct digit strings. */
  lemma HexInjective(v: nat, w: nat, width: nat)
    requires v < Pow16(width) && w < Pow16(width)
    requires Hex(v, width) == Hex(w, width)
    ensures v == w
  {
    HexRoundTrip(v, width);
    HexRoundTrip(w, width);
  }
}
