/**
 * One pass of the body of the endless loop in `main`: three fades, each
 * stepping an 8-bit counter from 0 to 254 and sending one colour per step.
 * The pass is specified by the word sequence `FadePass()`; the method
 * `FadeLoopBody` sends exactly that sequence through the FIFO.
 */
module FadeAnimation {
  import opened Ws2812Encoder

  /** The three fades, in the order the loop body runs them. */
  datatype Phase = GreenToRed | RedToBlue | BlueToGreen

  /** Number of steps of one fade: the counter runs while it is below 0xff. */
  const Steps: nat := 0xff

  /**
   * The channel value `0xff - cnt`. C computes it on `int` and passes it as
   * a `uint8_t`; since 0 <= cnt < 0xff the `int` value lies in [1, 255],
   * so the conversion is exact and the 8-bit difference is that value.
   */
  function FadeDown(cnt: bv8): (v: bv8)
    requires cnt < 0xff
    ensures 1 <= v as int <= 0xff
    ensures v as int == 0xff - cnt as int
  {
    0xff - cnt
  }

  /** The colour sent at counter value `cnt` of phase `p`. */
  function FrameColor(p: Phase, cnt: bv8): Color
    requires cnt < 0xff
  {
    match p
    case GreenToRed => Color(cnt, FadeDown(cnt), 0)
    case RedToBlue => Color(FadeDown(cnt), 0, cnt)
    case BlueToGreen => Color(0, cnt, FadeDown(cnt))
  }

  /** The word `put_rgb` sends at counter value `cnt` of phase `p`. */
  function FrameWord(p: Phase, cnt: bv8): bv32
    requires cnt < 0xff
  {
    var c := FrameColor(p, cnt);
    Encode(c.red, c.green, c.blue)
  }

  /** The channel phase `p` drives with the counter. */
  function Rising(p: Phase, c: Color): bv8 {
    match p
    case GreenToRed => c.red
    case RedToBlue => c.blue
    case BlueToGreen => c.green
  }

  /** The channel phase `p` drives with `0xff - cnt`. */
  function Falling(p: Phase, c: Color): bv8 {
    match p
    case GreenToRed => c.green
    case RedToBlue => c.red
    case BlueToGreen => c.blue
  }

  /** The channel phase `p` holds at zero. */
  function Idle(p: Phase, c: Color): bv8 {
    match p
    case GreenToRed => c.blue
    case RedToBlue => c.green
    case BlueToGreen => c.red
  }

  /** The words sent by the steps with counter values 0 .. n - 1 of phase `p`, in order. */
  function PhaseFrames(p: Phase, n: bv8): (frames: seq<bv32>)
    requires n <= 0xff
    ensures |frames| == n as int
    decreases n
  {
    if n == 0 then []
    else
      PredecessorAsInt(n);
      PhaseFrames(p, n - 1) + [FrameWord(p, n - 1)]
  }

  /** The words sent by one pass of the loop body: 3 * 255 = 765 of them. */
  function FadePass(): (pass: seq<bv32>)
    ensures |pass| == 3 * Steps
  {
    PhaseFrames(GreenToRed, 0xff) + PhaseFrames(RedToBlue, 0xff) + PhaseFrames(BlueToGreen, 0xff)
  }

  /** The position in a pass of the first word of phase `p`. */
  function Base(p: Phase): nat {
    match p
    case GreenToRed => 0
    case RedToBlue => Steps
    case BlueToGreen => 2 * Steps
  }

  /**
   * Each colour of a fade: the idle channel is zero, the rising channel is
   * the counter, and the falling channel is in [1, 255] and makes the two
   * sum to 0xff.
   */
  lemma FrameColorChannels(p: Phase, cnt: bv8)
    requires cnt < 0xff
    ensures var c := Decode(FrameWord(p, cnt));
      && c == FrameColor(p, cnt)
      && Idle(p, c) == 0
      && Rising(p, c) == cnt
      && 1 <= Falling(p, c) as int <= 0xff
      && Rising(p, c) as int + Falling(p, c) as int == 0xff
  {
    var c := FrameColor(p, cnt);
    DecodeEncode(c.red, c.green, c.blue);
  }

  /** The arguments each of the three loops passes to `put_rgb`. */
  lemma FrameWordArguments(cnt: bv8)
    requires cnt < 0xff
    ensures FrameWord(GreenToRed, cnt) == Encode(cnt, 0xff - cnt, 0)
    ensures FrameWord(RedToBlue, cnt) == Encode(0xff - cnt, 0, cnt)
    ensures FrameWord(BlueToGreen, cnt) == Encode(0, cnt, 0xff - cnt)
  {
  }

  /** One more step of phase `p` appends the word for the current counter value. */
  lemma PhaseFramesStep(p: Phase, cnt: bv8)
    requires cnt < 0xff
    ensures PhaseFrames(p, cnt + 1) == PhaseFrames(p, cnt) + [FrameWord(p, cnt)]
  {
    assert (cnt + 1) - 1 == cnt;
  }

  /** The 8-bit predecessor of a positive counter, read as an integer. */
  lemma PredecessorAsInt(n: bv8)
    requires 0 < n
    ensures (n - 1) as int == n as int - 1
  {
  }

  /** Unsigned 8-bit order agrees with integer order. */
  lemma LessAsInt(k: bv8, n: bv8)
    requires k < n
    ensures k as int < n as int
  {
  }

  /**
   * The steps with counter values 0 .. n - 1 of a phase send `n` words, and
   * the step with counter value `k` sends the word for `k`.
   */
  lemma {:induction false} PhaseFramesAt(p: Phase, n: bv8, k: bv8)
    requires n <= 0xff && k < n
    ensures |PhaseFrames(p, n)| == n as int
    ensures PhaseFrames(p, n)[k as int] == FrameWord(p, k)
    decreases n
  {
    var m := n - 1;
    PredecessorAsInt(n);
    if k < m {
      LessAsInt(k, m);
      PhaseFramesAt(p, m, k);
    } else {
      assert k == m;
    }
  }

  /** Three consecutive blocks of one phase's length each. */
  lemma ConcatAt(first: seq<bv32>, second: seq<bv32>, third: seq<bv32>, i: nat)
    requires |first| == |second| == |third| == Steps && i < Steps
    ensures (first + second + third)[i] == first[i]
    ensures (first + second + third)[Steps + i] == second[i]
    ensures (first + second + third)[2 * Steps + i] == third[i]
  {
  }

  /** Phase `p`'s words occupy positions `Base(p)` .. `Base(p) + 254` of a pass, in order. */
  lemma FadePassSplit(p: Phase, i: nat)
    requires i < Steps
    ensures FadePass()[Base(p) + i] == PhaseFrames(p, 0xff)[i]
  {
    ConcatAt(PhaseFrames(GreenToRed, 0xff), PhaseFrames(RedToBlue, 0xff), PhaseFrames(BlueToGreen, 0xff), i);
    match p
    case GreenToRed => assert Base(p) == 0;
    case RedToBlue => assert Base(p) == Steps;
    case BlueToGreen => assert Base(p) == 2 * Steps;
  }

  /**
   * One pass sends its words in call order: the word for counter value
   * `cnt` of phase `p` sits at position `Base(p) + cnt`.
   */
  lemma FadePassAt(p: Phase, cnt: bv8)
    requires cnt < 0xff
    ensures FadePass()[Base(p) + cnt as int] == FrameWord(p, cnt)
  {
    PhaseFramesAt(p, 0xff, cnt);
    FadePassSplit(p, cnt as int);
  }

  /**
   * What an observer decoding word `Base(p) + cnt` of a pass sees: the
   * idle channel of `p` is 0, the rising channel equals the counter, and
   * the other two channels sum to 0xff. The counter values a phase visits,
   * read back this way, are 0, 1, ..., 254, each once and in order.
   */
  lemma FadePassDecoded(p: Phase, cnt: bv8)
    requires cnt < 0xff
    ensures var c := Decode(FadePass()[Base(p) + cnt as int]);
      && Idle(p, c) == 0
      && Rising(p, c) == cnt
      && 1 <= Falling(p, c) as int <= 0xff
      && Rising(p, c) as int + Falling(p, c) as int == 0xff
  {
    FadePassAt(p, cnt);
    FrameColorChannels(p, cnt);
  }

  /**
   * The same facts per channel: during the first fade blue is 0 and red +
   * green == 0xff, during the second green is 0 and red + blue == 0xff,
   * during the third red is 0 and green + blue == 0xff.
   */
  lemma FadePassChannels(cnt: bv8)
    requires cnt < 0xff
    ensures var c := Decode(FadePass()[cnt as int]);
      c.blue == 0 && c.red == cnt && c.red as int + c.green as int == 0xff
    ensures var c := Decode(FadePass()[Steps + cnt as int]);
      c.green == 0 && c.blue == cnt && c.red as int + c.blue as int == 0xff
    ensures var c := Decode(FadePass()[2 * Steps + cnt as int]);
      c.red == 0 && c.green == cnt && c.green as int + c.blue as int == 0xff
  {
    FadePassDecoded(GreenToRed, cnt);
    FadePassDecoded(RedToBlue, cnt);
    FadePassDecoded(BlueToGreen, cnt);
  }

  /**
   * Between consecutive steps of one phase the rising channel goes up by
   * one and the falling channel goes down by one.
   */
  lemma FadePassStep(p: Phase, cnt: bv8)
    requires cnt < 0xfe
    ensures var c, c' := Decode(FadePass()[Base(p) + cnt as int]), Decode(FadePass()[Base(p) + cnt as int + 1]);
      && Rising(p, c') as int == Rising(p, c) as int + 1
      && Falling(p, c') as int == Falling(p, c) as int - 1
  {
    FadePassDecoded(p, cnt);
    FadePassDecoded(p, cnt + 1);
    assert (cnt + 1) as int == cnt as int + 1;
  }

  /**
   * No word repeats within a pass: different (phase, counter) steps send
   * different words, because no colour of one fade occurs in another and
   * within a fade the rising channel is the counter.
   */
  lemma FadePassDistinct(p: Phase, cnt: bv8, q: Phase, cnt': bv8)
    requires cnt < 0xff && cnt' < 0xff
    requires p != q || cnt != cnt'
    ensures FadePass()[Base(p) + cnt as int] != FadePass()[Base(q) + cnt' as int]
  {
    FadePassAt(p, cnt);
    FadePassAt(q, cnt');
    FrameColorDistinct(p, cnt, q, cnt');
    var c, d := FrameColor(p, cnt), FrameColor(q, cnt');
    if Encode(c.red, c.green, c.blue) == Encode(d.red, d.green, d.blue) {
      EncodeInjective(c, d);
    }
  }

  /** Different steps of a pass have different colours. */
  lemma FrameColorDistinct(p: Phase, cnt: bv8, q: Phase, cnt': bv8)
    requires cnt < 0xff && cnt' < 0xff
    requires p != q || cnt != cnt'
    ensures FrameColor(p, cnt) != FrameColor(q, cnt')
  {
    var c, d := FrameColor(p, cnt), FrameColor(q, cnt');
    if p == q {
      assert Rising(p, c) == cnt && Rising(q, d) == cnt';
    } else {
      // the falling channel of one fade would have to be the idle 0 of the other
      assert Falling(p, c) != 0 && Falling(q, d) != 0;
      assert Idle(p, c) == 0 && Idle(q, d) == 0;
    }
  }

  /** The first and last colour of each phase. */
  lemma FadePassEndpoints()
    ensures |FadePass()| == 765
    ensures Decode(FadePass()[0]) == Color(0, 0xff, 0)
    ensures Decode(FadePass()[254]) == Color(254, 1, 0)
    ensures Decode(FadePass()[255]) == Color(0xff, 0, 0)
    ensures Decode(FadePass()[509]) == Color(1, 0, 254)
    ensures Decode(FadePass()[510]) == Color(0, 0, 0xff)
    ensures Decode(FadePass()[764]) == Color(0, 254, 1)
  {
    FadePassChannels(0);
    FadePassChannels(254);
  }

  /** The first `for` loop: red fades in while green fades out, blue off. */
  method FadeGreenToRed(fifo: TxFifo)
    modifies fifo
    ensures fifo.sent == old(fifo.sent) + PhaseFrames(GreenToRed, 0xff)
  {
    var cnt: bv8 := 0;
    while cnt < 0xff
      invariant fifo.sent == old(fifo.sent) + PhaseFrames(GreenToRed, cnt)
    {
      FrameWordArguments(cnt);
      PutRgb(fifo, cnt, 0xff - cnt, 0);
      PhaseFramesStep(GreenToRed, cnt);
      cnt := cnt + 1;
    }
  }

  /** The second `for` loop: blue fades in while red fades out, green off. */
  method FadeRedToBlue(fifo: TxFifo)
    modifies fifo
    ensures fifo.sent == old(fifo.sent) + PhaseFrames(RedToBlue, 0xff)
  {
    var cnt: bv8 := 0;
    while cnt < 0xff
      invariant fifo.sent == old(fifo.sent) + PhaseFrames(RedToBlue, cnt)
    {
      FrameWordArguments(cnt);
      PutRgb(fifo, 0xff - cnt, 0, cnt);
      PhaseFramesStep(RedToBlue, cnt);
      cnt := cnt + 1;
    }
  }

  /** The third `for` loop: green fades in while blue fades out, red off. */
  method FadeBlueToGreen(fifo: TxFifo)
    modifies fifo
    ensures fifo.sent == old(fifo.sent) + PhaseFrames(BlueToGreen, 0xff)
  {
    var cnt: bv8 := 0;
    while cnt < 0xff
      invariant fifo.sent == old(fifo.sent) + PhaseFrames(BlueToGreen, cnt)
    {
      FrameWordArguments(cnt);
      PutRgb(fifo, 0, cnt, 0xff - cnt);
      PhaseFramesStep(BlueToGreen, cnt);
      cnt := cnt + 1;
    }
  }

  /**
   * One iteration of the `while (1)` body: the three fade loops in order.
   * The `sleep_ms(3)` after each step has no effect on what is sent.
   */
  method FadeLoopBody(fifo: TxFifo)
    modifies fifo
    ensures fifo.sent == old(fifo.sent) + FadePass()
  {
    FadeGreenToRed(fifo);
    FadeRedToBlue(fifo);
    FadeBlueToGreen(fifo);
  }
}
