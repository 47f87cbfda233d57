/**
 * The WS2812 colour encoder: `put_rgb` packs three 8-bit channels into a
 * 24-bit word in the LED's wire order (green, red, blue), and `put_pixel`
 * left-aligns that word in the 32-bit word written to the transmit FIFO of
 * state machine 0 of PIO block 0.
 *
 * The FIFO is modelled as the sequence of words written to it so far; its
 * blocking behaviour and the state machine that drains it are not modelled.
 */
module Ws2812Encoder {

  /** A pixel colour: three independent 8-bit channels. */
  datatype Color = Color(red: bv8, green: bv8, blue: bv8)

  /** Byte lane `i` of a 32-bit word; lane 0 is the least significant byte. */
  function Lane(w: bv32, i: nat): bv8
    requires i < 4
  {
    if i == 0 then (w & 0xFF) as bv8
    else if i == 1 then ((w >> 8) & 0xFF) as bv8
    else if i == 2 then ((w >> 16) & 0xFF) as bv8
    else ((w >> 24) & 0xFF) as bv8
  }

  /**
   * The mask `put_rgb` builds: green in bits 23..16, red in bits 15..8,
   * blue in bits 7..0, and nothing above bit 23. The C shifts are done on
   * the promoted `int`, where none of them can overflow, so they agree with
   * 32-bit bit-vector shifts.
   */
  function GrbMask(red: bv8, green: bv8, blue: bv8): (mask: bv32)
    ensures Lane(mask, 0) == blue
    ensures Lane(mask, 1) == red
    ensures Lane(mask, 2) == green
    ensures Lane(mask, 3) == 0
    ensures mask < 0x100_0000
  {
    ((green as bv32) << 16) | ((red as bv32) << 8) | ((blue as bv32) << 0)
  }

  /**
   * The word `put_pixel` writes: its argument shifted left by 8 on an
   * unsigned 32-bit value, so the top byte of the argument is discarded and
   * the low byte of the result is zero.
   */
  function LeftAlign(pixelGrb: bv32): (word: bv32)
    ensures Lane(word, 0) == 0
    ensures Lane(word, 1) == Lane(pixelGrb, 0)
    ensures Lane(word, 2) == Lane(pixelGrb, 1)
    ensures Lane(word, 3) == Lane(pixelGrb, 2)
  {
    pixelGrb << 8
  }

  /**
   * Shifting back recovers the low 24 bits of the argument, and the whole
   * argument exactly when it fits in 24 bits, as every `put_rgb` mask does.
   */
  lemma LeftAlignLossless(pixelGrb: bv32)
    ensures LeftAlign(pixelGrb) >> 8 == pixelGrb & 0xFF_FFFF
    ensures (LeftAlign(pixelGrb) >> 8 == pixelGrb) <==> pixelGrb < 0x100_0000
  {
  }

  /** No colour bit of a `put_rgb` mask is lost by the shift in `put_pixel`. */
  lemma MaskSurvivesShift(red: bv8, green: bv8, blue: bv8)
    ensures LeftAlign(GrbMask(red, green, blue)) >> 8 == GrbMask(red, green, blue)
  {
    LeftAlignLossless(GrbMask(red, green, blue));
  }

  /**
   * The FIFO word for one call of `put_rgb`: green in the top byte, then
   * red, then blue, and a zero low byte.
   */
  function Encode(red: bv8, green: bv8, blue: bv8): (word: bv32)
    ensures Lane(word, 3) == green
    ensures Lane(word, 2) == red
    ensures Lane(word, 1) == blue
    ensures Lane(word, 0) == 0
  {
    LeftAlign(GrbMask(red, green, blue))
  }

  /**
   * Reads the colour back out of a FIFO word. Whatever the word, encoding
   * the colour read gives the word with its low byte cleared.
   */
  function Decode(word: bv32): (c: Color)
    ensures Encode(c.red, c.green, c.blue) == word & 0xFFFF_FF00
  {
    Color(Lane(word, 2), Lane(word, 3), Lane(word, 1))
  }

  /** Decoding an encoded word recovers the three channels exactly. */
  lemma DecodeEncode(red: bv8, green: bv8, blue: bv8)
    ensures Decode(Encode(red, green, blue)) == Color(red, green, blue)
  {
  }

  /** A FIFO word whose low byte is zero is the encoding of its own decoding. */
  lemma EncodeDecode(word: bv32)
    requires Lane(word, 0) == 0
    ensures var c := Decode(word); Encode(c.red, c.green, c.blue) == word
  {
    assert word & 0xFFFF_FF00 == word;
  }

  /** Distinct colours give distinct FIFO words. */
  lemma EncodeInjective(c: Color, d: Color)
    requires Encode(c.red, c.green, c.blue) == Encode(d.red, d.green, d.blue)
    ensures c == d
  {
    DecodeEncode(c.red, c.green, c.blue);
    DecodeEncode(d.red, d.green, d.blue);
  }

  /** The worked examples: a mixed colour, black and white. */
  lemma EncodeExamples()
    ensures Encode(0x12, 0x34, 0x56) == 0x3412_5600
    ensures GrbMask(0x12, 0x34, 0x56) == 0x34_1256
    ensures Encode(0, 0, 0) == 0
    ensures Encode(0xFF, 0xFF, 0xFF) == 0xFFFF_FF00
  {
  }

  /**
   * The transmit FIFO of state machine 0, seen as the words written to it
   * in order. The program keeps no copy of these words, so the record is
   * ghost.
   */
  class TxFifo {
    ghost var sent: seq<bv32>

    constructor ()
      ensures sent == []
    {
      sent := [];
    }

    /** `pio_sm_put_blocking`: the word is appended once there is room. */
    method PutBlocking(word: bv32)
      modifies this
      ensures sent == old(sent) + [word]
    {
      sent := sent + [word];
    }
  }

  /** `put_pixel`: writes the left-aligned word to the FIFO. */
  method PutPixel(fifo: TxFifo, pixelGrb: bv32)
    modifies fifo
    ensures fifo.sent == old(fifo.sent) + [LeftAlign(pixelGrb)]
  {
    fifo.PutBlocking(LeftAlign(pixelGrb));
  }

  /** `put_rgb`: builds the GRB mask and hands it to `put_pixel`. */
  method PutRgb(fifo: TxFifo, red: bv8, green: bv8, blue: bv8)
    modifies fifo
    ensures fifo.sent == old(fifo.sent) + [Encode(red, green, blue)]
  {
    var mask := GrbMask(red, green, blue);
    PutPixel(fifo, mask);
  }
}
