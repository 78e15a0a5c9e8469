/**
 * Operand rendering: the `op_0`, `op_0_2`, `op_r`, `op_rb`, `op_l` and `op_lb`
 * helpers, which format an instruction's text and fix its record length.
 */
module Rendering {
  import opened Wrappers
  import opened Bits

  /** The C overload chosen: an 8-bit (`uint8_t`) or 16-bit (`uint16_t`) operand. */
  datatype Width = W8 | W16

  /** Which helper renders an instruction. */
  datatype Format =
    | Bare                                   // op_0: NAME
    | Right(width: Width)                    // op_r: NAME,$XX
    | RightInd(width: Width)                 // op_rb: NAME,($XX)
    | LeftAbs(width: Width, suffix: string)  // op_l: NAME $XX<suffix>
    | LeftInd(width: Width, suffix: string)  // op_lb: NAME ($XX)<suffix>

  /** Hex digits printed: `%.2X` for a byte, `%.4X` for a word. */
  function Digits(w: Width): nat {
    match w
    case W8 => 2
    case W16 => 4
  }

  /** The operands that fit in the printed digits. */
  function Bound(w: Width): nat {
    Pow16(Digits(w))
  }

  /** The printed digits hold exactly the operands of the overload's C type. */
  lemma BoundIsDigits(w: Width)
    ensures Bound(w) == if w == W8 then 0x100 else 0x1_0000
  {
    assert Pow16(1) == 16;
    assert Pow16(2) == 0x100;
    if w == W16 {
      assert Pow16(3) == 0x1000;
    }
  }

  /** The record length each helper hands to `op_create`. */
  function Size(f: Format): (n: nat)
    ensures 1 <= n <= 3
    ensures n == 1 <==> f.Bare?
    ensures !f.Bare? ==> 2 * (n - 1) == Digits(f.width)
  {
    match f
    case Bare => 1
    case _ => if f.width == W8 then 2 else 3
  }

  /** The rendered text, as the helper's `sprintf` format produces it. */
  function Render(name: string, f: Format, v: nat): (r: string)
    requires f.Bare? || v < Bound(f.width)
    ensures |r| >= |name| && r[..|name|] == name
    ensures f.Bare? <==> |r| == |name|
  {
    match f
    case Bare => name
    case Right(w) => name + ",$" + Hex(v, Digits(w))
    case RightInd(w) => name + ",($" + Hex(v, Digits(w)) + ")"
    case LeftAbs(w, suffix) => name + " $" + Hex(v, Digits(w)) + suffix
    case LeftInd(w, suffix) => name + " ($" + Hex(v, Digits(w)) + ")" + suffix
  }

  /** The text that precedes the operand digits. */
  function Opening(name: string, f: Format): string {
    match f
    case Bare => name
    case Right(_) => name + ",$"
    case RightInd(_) => name + ",($"
    case LeftAbs(_, _) => name + " $"
    case LeftInd(_, _) => name + " ($"
  }

  /** The text that follows the operand digits. */
  function Closing(f: Format): string {
    match f
    case Bare => ""
    case Right(_) => ""
    case RightInd(_) => ")"
    case LeftAbs(_, suffix) => suffix
    case LeftInd(_, suffix) => ")" + suffix
  }

  /** Reads the operand back out of a rendered text, if it has the helper's shape. */
  function Operand(text: string, name: string, f: Format): Option<nat>
    requires !f.Bare?
  {
    var lo := |Opening(name, f)|;
    var hi := lo + Digits(f.width);
    if |text| == hi + |Closing(f)| && text[..lo] == Opening(name, f) && text[hi..] == Closing(f)
    then ParseHex(text[lo..hi])
    else None
  }

  /**
   * Every rendering is the opening text, the hex digits and the closing
   * text. This regroups `Render`'s cases; it serves as the step from
   * `Render` to `Cut` in `RenderRoundTrip`.
   */
  lemma RenderShape(name: string, f: Format, v: nat)
    requires !f.Bare?
    requires v < Bound(f.width)
    ensures Render(name, f, v) == Opening(name, f) + Hex(v, Digits(f.width)) + Closing(f)
  {
  }

  /** The three parts of a concatenation can be cut back out of it. */
  lemma Cut(a: string, b: string, c: string)
    ensures (a + b + c)[..|a|] == a
    ensures (a + b + c)[|a|..|a| + |b|] == b
    ensures (a + b + c)[|a| + |b|..] == c
  {
  }

  /**
   * The rendered text is the mnemonic, fixed punctuation and exactly `Digits`
   * upper-case hex digits, and the operand can be read back from it.
   */
  lemma {:induction false} RenderRoundTrip(name: string, f: Format, v: nat)
    requires !f.Bare?
    requires v < Bound(f.width)
    ensures |Render(name, f, v)| == |Opening(name, f)| + Digits(f.width) + |Closing(f)|
    ensures Render(name, f, v)[..|name|] == name
    ensures Operand(Render(name, f, v), name, f) == Some(v)
  {
    var digits := Hex(v, Digits(f.width));
    var open, close := Opening(name, f), Closing(f);
    RenderShape(name, f, v);
    Cut(open, digits, close);
    assert open[..|name|] == name;
    HexRoundTrip(v, Digits(f.width));
  }

  /** 0x1234 in four digits. */
  lemma HexWordExample()
    ensures Hex(0x1234, 4) == "1234"
  {
    assert Hex(0x1, 1) == "1";
    assert Hex(0x12, 2) == "12";
    assert Hex(0x123, 3) == "123";
  }

  /** The 16-bit right operand of `LD BC,d16` renders as four digits. */
  lemma RenderWordExample()
    ensures Render("LD BC", Right(W16), 0x1234) == "LD BC,$1234"
  {
    BoundIsDigits(W16);
    HexWordExample();
  }
}
