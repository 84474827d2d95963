/**
 The packed 16-bit status word of the airpic status-LED driver.

 A caller of `led_setStatus` builds the word by OR-ing one color constant
 (bits 15..13) with one blink-mode constant (bits 1..0). This module gives the
 header's constants, an abstract view of the word as a `Status` (a set of lit
 primaries plus a blink mode), and the encoder/decoder between the two.
 */
module StatusLed {

  /** `unsigned int` on the PIC24 (XC16) is 16 bits wide. */
  type Word = bv16

  // ---------------------------------------------------------------------------
  // The header's constants
  // ---------------------------------------------------------------------------

  /** Blink-mode constants: the 2-bit field in bits 1..0. */
  const OFF: Word := 0x0001
  const SOLID: Word := 0x0002
  const SHORT_BLINK: Word := 0x0000
  const LONG_BLINK: Word := 0x0003

  /** Color constants: the 3-bit field in bits 15..13. */
  const RED: Word := 0x8000
  const GREEN: Word := 0x2000
  const BLUE: Word := 0x4000
  const ORANGE: Word := 0xA000
  const TEAL: Word := 0x6000
  const MAGENTA: Word := 0xC000

  /** The bits each field occupies. */
  const MODE_MASK: Word := 0x0003
  const COLOR_MASK: Word := 0xE000

  /** Every bit any constant of the header can set. */
  const FIELD_MASK: Word := COLOR_MASK | MODE_MASK

  // ---------------------------------------------------------------------------
  // The abstract view of a status word
  // ---------------------------------------------------------------------------

  /** The three dies of the common-cathode RGB LED. */
  datatype Primary = RedDie | GreenDie | BlueDie

  /** Which primaries are lit: any of the eight subsets is representable. */
  datatype Color = Color(red: bool, green: bool, blue: bool) {
    predicate Has(p: Primary) {
      match p
      case RedDie => red
      case GreenDie => green
      case BlueDie => blue
    }

    predicate IsDark() {
      !red && !green && !blue
    }
  }

  /** The four blink patterns the 2-bit mode field selects. */
  datatype Mode = Off | Solid | ShortBlink | LongBlink

  /** The six colors the header names. */
  datatype NamedColor = Red | Green | Blue | Orange | Teal | Magenta

  /** A decoded status word: the color to show and how to blink it. */
  datatype Status = Status(color: Color, mode: Mode)

  /** A word that sets no bit outside the two documented fields, which is
      exactly what OR-ing the header's constants can produce. */
  predicate WellFormed(w: Word) {
    w & !FIELD_MASK == 0
  }

  // ---------------------------------------------------------------------------
  // Wiring and the constant tables
  // ---------------------------------------------------------------------------

  /** The PORTB line each die is wired to: red on RB15, blue on RB14,
      green on RB13. */
  function PortBLine(p: Primary): (n: nat)
    ensures 13 <= n <= 15
  {
    match p
    case RedDie => 15
    case BlueDie => 14
    case GreenDie => 13
  }

  /** The color constant of a single primary; its one set bit is the index of
      the PORTB line that primary is wired to. */
  function PrimaryWord(p: Primary): (w: Word)
    ensures w == (1 as Word) << PortBLine(p)
    ensures w & COLOR_MASK == w
  {
    match p
    case RedDie => RED
    case GreenDie => GREEN
    case BlueDie => BLUE
  }

  /** The mode constant for each blink pattern. */
  function ModeWord(m: Mode): (w: Word)
    ensures w & MODE_MASK == w
    ensures w & COLOR_MASK == 0
  {
    match m
    case Off => OFF
    case Solid => SOLID
    case ShortBlink => SHORT_BLINK
    case LongBlink => LONG_BLINK
  }

  /** The primaries each named color mixes. */
  function Mix(n: NamedColor): (c: Color)
    ensures !c.IsDark()
  {
    match n
    case Red => Color(true, false, false)
    case Green => Color(false, true, false)
    case Blue => Color(false, false, true)
    case Orange => Color(true, true, false)
    case Teal => Color(false, true, true)
    case Magenta => Color(true, false, true)
  }

  /** The color field bits of an arbitrary set of lit primaries: one bit per
      lit primary, at that primary's PORTB line. */
  function ColorWord(c: Color): (w: Word)
    ensures w & COLOR_MASK == w
    ensures w & MODE_MASK == 0
    ensures forall p: Primary :: (w & PrimaryWord(p) != 0) <==> c.Has(p)
  {
    (if c.red then RED else 0) | (if c.green then GREEN else 0) | (if c.blue then BLUE else 0)
  }

  /** The header's constant for each named color; each one is the encoding of
      the primaries the color mixes, so the two-primary colors are unions. */
  function NamedWord(n: NamedColor): (w: Word)
    ensures w == ColorWord(Mix(n))
    ensures w != 0
  {
    match n
    case Red => RED
    case Green => GREEN
    case Blue => BLUE
    case Orange => ORANGE
    case Teal => TEAL
    case Magenta => MAGENTA
  }

  // ---------------------------------------------------------------------------
  // Encoding and decoding
  // ---------------------------------------------------------------------------

  /** The word `led_setStatus` expects for a color and a mode: the two fields
      OR-ed together. Neither field disturbs the other. */
  function Encode(c: Color, m: Mode): (w: Word)
    ensures WellFormed(w)
    ensures w & COLOR_MASK == ColorWord(c)
    ensures w & MODE_MASK == ModeWord(m)
  {
    ColorWord(c) | ModeWord(m)
  }

  /** The blink mode the low two bits select; every value of the 2-bit field
      is one of the four mode constants. */
  function DecodeMode(w: Word): (m: Mode)
    ensures ModeWord(m) == w & MODE_MASK
  {
    var field := w & MODE_MASK;
    if field == OFF then Off
    else if field == SOLID then Solid
    else if field == LONG_BLINK then LongBlink
    else ShortBlink
  }

  /** The primaries the top three bits select. */
  function DecodeColor(w: Word): (c: Color)
    ensures ColorWord(c) == w & COLOR_MASK
    ensures forall p: Primary :: c.Has(p) <==> w & PrimaryWord(p) != 0
  {
    Color(w & RED != 0, w & GREEN != 0, w & BLUE != 0)
  }

  /** What `led_setStatus` reads from the word its caller built from the
      header's constants. */
  function Decode(w: Word): (s: Status)
    requires WellFormed(w)
    ensures Encode(s.color, s.mode) == w
  {
    Status(DecodeColor(w), DecodeMode(w))
  }

  /** The status word in force right after `enable_statusLED()`. */
  const DEFAULT_WORD: Word := BLUE | SHORT_BLINK

  /** The status `enable_statusLED()` leaves the LED in: blue, short blink. */
  function EnableStatus(): (s: Status)
    ensures s.mode == ShortBlink
    ensures forall p: Primary :: s.color.Has(p) <==> p == BlueDie
  {
    Decode(DEFAULT_WORD)
  }
}
