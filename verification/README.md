# airpic status LED: the status-word format

The airpic status-LED driver (`airpic-libs/airpic-statusled.h`) shows the system
state on a common-cathode RGB LED. Callers pick a color and a blink pattern
through `led_setStatus(unsigned int stat)`. They build `stat` by OR-ing one
`STATUSLED_` color constant with one `STATUSLED_` blink-mode constant.

This project models that 16-bit status word (`bv16`, the width of `unsigned int`
on the PIC24):

- `status_word.dfy` (module `StatusLed`) holds the header's constants. It also
  defines the abstract view of a word:
  - a `Color` is three booleans, one per die;
  - a `Mode` is one of Off, Solid, ShortBlink or LongBlink;
  - a `Status` pairs the two.
  The module also has the wiring of the dies to PORTB lines, the encoder
  `Encode`, the field decoders, `Decode` and the default status after
  `enable_statusLED()`.
- `status_word_proofs.dfy` (module `StatusLedProofs`) proves properties of the
  format. The constants are the field values and unions the header describes.
  The two fields never overlap, so OR-composition loses nothing. The 24
  combinations of a named color and a mode are distinct words. Encoding and
  decoding are inverse to each other.

The header documents only two fields: bits 15..13 hold the color and bits 1..0
hold the mode. It asks callers to use only its constants combined with OR.
`Decode` therefore requires `WellFormed(w)`: no bit outside those two fields is
set. `WellFormedIffEncoded` proves that these words are exactly the ones OR-ing
the constants can build. The header says nothing about the other bits, and the
driver's implementation is not part of this model, so the model makes no
claim about such words.

## Model

| member | source | states |
|---|---|---|
| StatusLed.PortBLine | airpic-libs/airpic-statusled.h:11-13 | each die is wired to one of the lines RB13..RB15 |
| StatusLed.PrimaryWord | airpic-libs/airpic-statusled.h:11-13 | the color constant of red, blue or green is the single bit whose index is the PORTB line that die is wired to (RB15, RB14, RB13), inside the color field |
| StatusLed.ModeWord | airpic-libs/airpic-statusled.h:22-32 | every blink-mode constant lies inside the 2-bit mode field (mask 0x0003) and sets no color bit |
| StatusLed.Mix | airpic-libs/airpic-statusled.h:34-50 | every named color lights at least one die |
| StatusLed.ColorWord | airpic-libs/airpic-statusled.h:34-41 | the color field of any set of dies lies inside mask 0xE000, sets no mode bit, and has a die's bit set exactly when that die is lit |
| StatusLed.NamedWord | airpic-libs/airpic-statusled.h:34-50 | each of the six named color constants is nonzero and equals the encoding of the dies it mixes, so ORANGE = RED or GREEN, TEAL = BLUE or GREEN, MAGENTA = RED or BLUE |
| StatusLed.Encode | airpic-libs/airpic-statusled.h:63-69 | OR-ing a color with a mode sets no undocumented bit and leaves each field exactly as its constant, so neither field disturbs the other |
| StatusLed.DecodeMode | airpic-libs/airpic-statusled.h:22-32 | every value of the 2-bit mode field, whatever the other bits, is the constant of the mode decoded from it |
| StatusLed.DecodeColor | airpic-libs/airpic-statusled.h:34-41 | the decoded color re-encodes to exactly the word's color field, and lights a die exactly when that die's bit is set |
| StatusLed.Decode | airpic-libs/airpic-statusled.h:63-69 | for any word built from the constants with OR, the decoded status re-encodes to the same word |
| StatusLed.EnableStatus | airpic-libs/airpic-statusled.h:56-61 | right after enable_statusLED the mode is short blink and the only lit die is blue |
| StatusLedProofs.ModeWordInjective | airpic-libs/airpic-statusled.h:22-32 | two modes have the same constant if and only if they are the same mode |
| StatusLedProofs.ModeFieldExhausted | airpic-libs/airpic-statusled.h:22-32 | every one of the four values of the 2-bit field is the constant of some mode |
| StatusLedProofs.ColorWordInjective | airpic-libs/airpic-statusled.h:34-41 | two sets of lit dies have the same color bits if and only if they are equal |
| StatusLedProofs.NamedWordInjective | airpic-libs/airpic-statusled.h:34-50 | the six named color constants are pairwise distinct |
| StatusLedProofs.PrimariesDistinct | airpic-libs/airpic-statusled.h:34-41 | RED, GREEN and BLUE share a bit if and only if they are the same primary |
| StatusLedProofs.FieldsDisjoint | airpic-libs/airpic-statusled.h:22-50 | no color bits overlap any mode constant |
| StatusLedProofs.ComposeLossless | airpic-libs/airpic-statusled.h:65-67 | for a named color and a mode, the color mask and the mode mask of their OR give back each constant, and the word decodes to the color's dies and the mode |
| StatusLedProofs.ComposeInjective | airpic-libs/airpic-statusled.h:22-50 | two OR-compositions of a named color and a mode are equal if and only if both the colors and the modes are equal, so the 24 combinations are distinct words |
| StatusLedProofs.DecodeEncode | airpic-libs/airpic-statusled.h:65-67 | decoding the encoding of any color and mode gives that color and mode back |
| StatusLedProofs.WellFormedIffEncoded | airpic-libs/airpic-statusled.h:65-67 | a word sets no bit outside the two fields if and only if it is the encoding of some color and mode |
| StatusLedProofs.DefaultWord | airpic-libs/airpic-statusled.h:56-61 | the default word BLUE or SHORTBLINK is 0x4000, is the encoding of blue with short blink, and decodes to that status |

## Left out

- Timer2 set-up and its interrupt handler behind `enable_statusLED()`: hardware
  register I/O, and the implementation file is not part of this model.
- Blink timing ("on for a moment, off for a second" and its mirror): the header
  gives no tick period or cycle length, so the model has no phase counter.
- Writes to LATB/TRISB, and the resistor values: hardware and electrical
  details. The wiring of each die to its PORTB line is modelled by `PortBLine`.
- Atomicity of `led_setStatus` against the timer interrupt: concurrency, and
  the code for it is not part of this model.
- `led_setStatus` storing the word (last write wins) is not modelled as state.
  Its reading of the word is `Decode`.
- Bits 12..2 of the status word: the header does not document them, so
  `Decode` is stated only for words built from the constants with OR.
