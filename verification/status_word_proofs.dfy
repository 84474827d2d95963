/**
 Properties of the status-word format: the constants are the field values and
 unions the header describes, the two fields never overlap, OR-composition
 loses nothing, and encoding and decoding are inverse to each other.
 */
module StatusLedProofs {
  import opened StatusLed

  // ---------------------------------------------------------------------------
  // The mode field
  // ---------------------------------------------------------------------------

  /** The four mode constants are pairwise distinct. */
  lemma ModeWordInjective(a: Mode, b: Mode)
    ensures ModeWord(a) == ModeWord(b) <==> a == b
  {
  }

  /** The four mode constants use up every value of the 2-bit field. */
  lemma ModeFieldExhausted(f: Word)
    requires f & MODE_MASK == f
    ensures exists m: Mode :: ModeWord(m) == f
  {
    assert ModeWord(DecodeMode(f)) == f & MODE_MASK == f;
  }

  // ---------------------------------------------------------------------------
  // The color field
  // ---------------------------------------------------------------------------

  /** Distinct sets of lit primaries have distinct color bits. */
  lemma ColorWordInjective(a: Color, b: Color)
    ensures ColorWord(a) == ColorWord(b) <==> a == b
  {
  }

  /** The six named color constants are pairwise distinct. */
  lemma NamedWordInjective(a: NamedColor, b: NamedColor)
    ensures NamedWord(a) == NamedWord(b) <==> a == b
  {
  }

  /** The primaries are single bits at three distinct positions. */
  lemma PrimariesDistinct(p: Primary, q: Primary)
    ensures PrimaryWord(p) & PrimaryWord(q) != 0 <==> p == q
  {
  }

  // ---------------------------------------------------------------------------
  // Composition
  // ---------------------------------------------------------------------------

  /** No color shares a bit with any mode. */
  lemma FieldsDisjoint(c: Color, m: Mode)
    ensures ColorWord(c) & ModeWord(m) == 0
  {
  }

  /** OR-ing a named color with a mode keeps both fields intact, so the
      driver reads back the color's primaries and the mode. */
  lemma ComposeLossless(n: NamedColor, m: Mode)
    ensures (NamedWord(n) | ModeWord(m)) & COLOR_MASK == NamedWord(n)
    ensures (NamedWord(n) | ModeWord(m)) & MODE_MASK == ModeWord(m)
    ensures Decode(NamedWord(n) | ModeWord(m)) == Status(Mix(n), m)
  {
  }

  /** The 24 combinations of a named color and a mode are 24 distinct words. */
  lemma ComposeInjective(n1: NamedColor, m1: Mode, n2: NamedColor, m2: Mode)
    ensures NamedWord(n1) | ModeWord(m1) == NamedWord(n2) | ModeWord(m2) <==> n1 == n2 && m1 == m2
  {
  }

  // ---------------------------------------------------------------------------
  // Round trips
  // ---------------------------------------------------------------------------

  /** Decoding an encoded status gives the status back. */
  lemma DecodeEncode(c: Color, m: Mode)
    ensures Decode(Encode(c, m)) == Status(c, m)
  {
  }

  /** The well-formed words are exactly the encodings of some status. */
  lemma WellFormedIffEncoded(w: Word)
    ensures WellFormed(w) <==> exists c: Color, m: Mode :: Encode(c, m) == w
  {
    if WellFormed(w) {
      var s := Decode(w);
      assert Encode(s.color, s.mode) == w;
    }
  }

  // ---------------------------------------------------------------------------
  // The default
  // ---------------------------------------------------------------------------

  /** The default word is 0x4000 and shows blue with a short blink. */
  lemma DefaultWord()
    ensures DEFAULT_WORD == 0x4000
    ensures DEFAULT_WORD == Encode(Mix(Blue), ShortBlink)
    ensures EnableStatus() == Status(Mix(Blue), ShortBlink)
  {
  }
}
