/** The sixteen text-mode colours and the packed attribute byte that every screen cell carries. */
module ColorCodes {

  /** The text-mode palette. Each colour has a fixed 4-bit hardware code, given by `Value`. */
  datatype Color =
    | Black | Blue | Green | Cyan | Red | Magenta | Brown | LightGray
    | DarkGray | LightBlue | LightGreen | LightCyan | LightRed | Pink | Yellow | White

  /** The hardware code of a colour, as the enum discriminant fixes it. */
  function Value(c: Color): (v: bv8)
    ensures v < 16
  {
    match c
    case Black => 0
    case Blue => 1
    case Green => 2
    case Cyan => 3
    case Red => 4
    case Magenta => 5
    case Brown => 6
    case LightGray => 7
    case DarkGray => 8
    case LightBlue => 9
    case LightGreen => 10
    case LightCyan => 11
    case LightRed => 12
    case Pink => 13
    case Yellow => 14
    case White => 15
  }

  /** The colour whose hardware code is `v`: the inverse of `Value` on 0..15. */
  function ColorOf(v: bv8): (c: Color)
    requires v < 16
    ensures Value(c) == v
  {
    if v == 0 then Black
    else if v == 1 then Blue
    else if v == 2 then Green
    else if v == 3 then Cyan
    else if v == 4 then Red
    else if v == 5 then Magenta
    else if v == 6 then Brown
    else if v == 7 then LightGray
    else if v == 8 then DarkGray
    else if v == 9 then LightBlue
    else if v == 10 then LightGreen
    else if v == 11 then LightCyan
    else if v == 12 then LightRed
    else if v == 13 then Pink
    else if v == 14 then Yellow
    else White
  }

  /** Distinct colours have distinct codes, so decoding a colour's code gives it back. */
  lemma ValueRoundTrip(c: Color)
    ensures ColorOf(Value(c)) == c
  {
  }

  /** The attribute byte of a cell: background in the high nibble, foreground in the low nibble. */
  datatype ColorCode = ColorCode(value: bv8)

  /** The colour stored in the low nibble of an attribute byte. */
  function Foreground(cc: ColorCode): (c: Color)
    ensures Value(c) == cc.value & 0x0F
  {
    ColorOf(cc.value & 0x0F)
  }

  /** The colour stored in the high nibble of an attribute byte. */
  function Background(cc: ColorCode): (c: Color)
    ensures Value(c) == cc.value >> 4
  {
    ColorOf(cc.value >> 4)
  }

  /** Packs two colours into one attribute byte with an 8-bit shift and or. */
  function NewColorCode(foreground: Color, background: Color): (cc: ColorCode)
    ensures cc.value as int == 16 * Value(background) as int + Value(foreground) as int
    ensures Foreground(cc) == foreground && Background(cc) == background
  {
    ValueRoundTrip(foreground);
    ValueRoundTrip(background);
    ColorCode((Value(background) << 4) | Value(foreground))
  }

  /** Every attribute byte is the packing of the two colours its nibbles name. */
  lemma DecodeRoundTrip(cc: ColorCode)
    ensures NewColorCode(Foreground(cc), Background(cc)) == cc
  {
    assert ((cc.value >> 4) << 4) | (cc.value & 0x0F) == cc.value;
  }

  /** Two colour pairs give the same attribute byte only if they are the same pair. */
  lemma NewColorCodeInjective(f1: Color, b1: Color, f2: Color, b2: Color)
    requires NewColorCode(f1, b1) == NewColorCode(f2, b2)
    ensures f1 == f2 && b1 == b2
  {
  }
}
