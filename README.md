# WS2812 colour encoder and fade animation (RP2040-Zero)

This project models in Dafny the firmware that drives one WS2812 RGB LED from
the programmable I/O (PIO) block of an RP2040. It covers two parts:

- **The colour encoder.** `put_rgb` packs the red, green and blue bytes into a
  24-bit mask in the LED's wire order: green, then red, then blue. `put_pixel`
  shifts that mask left by 8, so the colour fills the top three bytes of the
  32-bit word. It then writes that word to the transmit FIFO of state machine 0
  of PIO block 0. Module `Ws2812Encoder` models the mask, the shift and the
  resulting word as pure functions on `bv8`/`bv32` (`GrbMask`, `LeftAlign`,
  `Encode`). Its inverse is `Decode`. The FIFO is a class `TxFifo` whose ghost
  field `sent` is the sequence of words written so far. `PutPixel` and
  `PutRgb` are the two C functions as methods that append to it.
- **One pass of the animation.** The endless loop in `main` runs three fades.
  In each, an 8-bit counter `cnt` goes from 0 to 254, and every step sends one
  colour. In the first fade, green falls while red rises. In the second, red
  falls while blue rises. In the third, blue falls while green rises. Module
  `FadeAnimation` specifies one pass as the 765-word sequence `FadePass()`,
  built from `PhaseFrames` for each fade.
  - `FadeLoopBody` is one iteration of the loop body. It runs the three `for`
    loops in order, each as its own method (`FadeGreenToRed`, `FadeRedToBlue`,
    `FadeBlueToGreen`). Each loop keeps the source's counter type (`bv8` for
    `uint8_t`) and the source's exact `put_rgb` arguments.
  - Each method's postcondition says that it appends exactly its phase's words
    to the FIFO, in call order.
  - The lemmas then state what those words mean: length, channel sums, the
    counter values visited, monotonicity, endpoints and distinctness.

The C expression `0xff - cnt` is computed on `int` and passed as a `uint8_t`.
The model computes it as an 8-bit difference. `FadeDown` proves that this
agrees with the `int` value and lies in [1, 255], so nothing wraps. The shifts
`green << 16` and `red << 8` are done on the promoted `int` in C. They cannot
overflow there, so they agree with the 32-bit bit-vector shifts of the model.
`pixel_grb << 8u` is an unsigned 32-bit shift, and the model's `bv32` shift
wraps around the same way. `cnt++` on a `uint8_t` could wrap at 255, but it
never does: the loop runs only while `cnt < 0xff`. Dafny's termination check
on the `bv8` counter confirms this.

## Model

| member | source | states |
|---|---|---|
| Ws2812Encoder.GrbMask | RP2040_Zero_Project.c:16-19 | the mask has blue in bits 7..0, red in bits 15..8, green in bits 23..16 and zero in bits 31..24, so it is below 2^24 |
| Ws2812Encoder.LeftAlign | RP2040_Zero_Project.c:9-14 | the FIFO word has a zero low byte, and its bytes 1, 2 and 3 are bytes 0, 1 and 2 of the argument (the argument's top byte is dropped) |
| Ws2812Encoder.LeftAlignLossless | RP2040_Zero_Project.c:12-14 | shifting the FIFO word back right by 8 gives the low 24 bits of the argument, and gives the whole argument exactly when the argument is below 2^24 |
| Ws2812Encoder.MaskSurvivesShift | RP2040_Zero_Project.c:14-20 | no colour bit of a put_rgb mask is lost by the shift in put_pixel |
| Ws2812Encoder.Encode | RP2040_Zero_Project.c:16-20 | the word put_rgb writes has green in bits 31..24, red in bits 23..16, blue in bits 15..8 and zero in bits 7..0 |
| Ws2812Encoder.Decode | RP2040_Zero_Project.c:19 | reading bytes 2, 3 and 1 as red, green and blue and encoding them again gives any word with its low byte cleared |
| Ws2812Encoder.DecodeEncode | RP2040_Zero_Project.c:14-19 | decoding the FIFO word of put_rgb recovers (red, green, blue) exactly |
| Ws2812Encoder.EncodeDecode | RP2040_Zero_Project.c:14-19 | every word with a zero low byte is the encoding of its decoded colour |
| Ws2812Encoder.EncodeInjective | RP2040_Zero_Project.c:14-19 | two colours with the same FIFO word are the same colour |
| Ws2812Encoder.EncodeExamples | RP2040_Zero_Project.c:14-19 | put_rgb(0x12, 0x34, 0x56) builds the mask 0x341256 and writes 0x34125600; black writes 0; white writes 0xFFFFFF00 |
| Ws2812Encoder.TxFifo.PutBlocking | RP2040_Zero_Project.c:14 | the FIFO write appends the word to the words sent so far and changes nothing else |
| Ws2812Encoder.PutPixel | RP2040_Zero_Project.c:9-15 | put_pixel appends exactly one word, its argument shifted left by 8 |
| Ws2812Encoder.PutRgb | RP2040_Zero_Project.c:16-21 | put_rgb appends exactly one word, the GRB encoding of its three arguments |
| FadeAnimation.FadeDown | RP2040_Zero_Project.c:42-54 | for every counter value below 0xff, `0xff - cnt` is in [1, 255] and equals the integer difference, so it never underflows or wraps |
| FadeAnimation.PhaseFrames | RP2040_Zero_Project.c:42-56 | the steps with counter values 0 .. n-1 of a fade send exactly n words |
| FadeAnimation.FadePass | RP2040_Zero_Project.c:39-57 | one pass of the loop body sends 3 * 255 = 765 words |
| FadeAnimation.FrameWordArguments | RP2040_Zero_Project.c:44-54 | the arguments each loop passes to put_rgb are the colour of that fade at the current counter value |
| FadeAnimation.FrameColorChannels | RP2040_Zero_Project.c:42-56 | in every frame, decoding gives back the frame's colour; the idle channel is 0, the rising channel equals the counter, the falling channel is in [1, 255], and the two active channels sum to 0xff |
| FadeAnimation.PhaseFramesStep | RP2040_Zero_Project.c:42-46 | one more loop iteration appends the word for the current counter value and nothing else |
| FadeAnimation.PhaseFramesAt | RP2040_Zero_Project.c:42-56 | a fade of n steps sends n words, and the k-th word is the word for counter value k (the counter visits 0, 1, ... in order, no repeats or skips) |
| FadeAnimation.FadePassSplit | RP2040_Zero_Project.c:39-57 | in a pass, the words of the first, second and third fade occupy positions 0..254, 255..509 and 510..764, in the order the loops run |
| FadeAnimation.FadePassAt | RP2040_Zero_Project.c:39-57 | the pass word at position Base(p) + cnt is the word put_rgb sends at counter value cnt of fade p |
| FadeAnimation.FadePassDecoded | RP2040_Zero_Project.c:42-56 | decoding any word of a pass: the fade's idle channel is 0, its rising channel is the counter, and its other two channels sum to 0xff with the falling one in [1, 255] |
| FadeAnimation.FadePassChannels | RP2040_Zero_Project.c:42-56 | first fade: blue = 0, red = cnt, red + green = 0xff; second: green = 0, blue = cnt, red + blue = 0xff; third: red = 0, green = cnt, green + blue = 0xff |
| FadeAnimation.FadePassStep | RP2040_Zero_Project.c:42-56 | between consecutive frames of one fade, the rising channel goes up by exactly 1 and the falling channel goes down by exactly 1 |
| FadeAnimation.FrameColorDistinct | RP2040_Zero_Project.c:42-56 | no two steps of a pass, in the same fade or in different fades, send the same colour |
| FadeAnimation.FadePassDistinct | RP2040_Zero_Project.c:42-56 | no two steps of a pass send the same FIFO word |
| FadeAnimation.FadePassEndpoints | RP2040_Zero_Project.c:42-56 | the first fade goes from (r, g, b) = (0, 255, 0) to (254, 1, 0), the second from (255, 0, 0) to (1, 0, 254), and the third from (0, 0, 255) to (0, 254, 1) |
| FadeAnimation.FadeGreenToRed | RP2040_Zero_Project.c:42-46 | the first for loop appends exactly the 255 words of the green-to-red fade, in order |
| FadeAnimation.FadeRedToBlue | RP2040_Zero_Project.c:47-51 | the second for loop appends exactly the 255 words of the red-to-blue fade, in order |
| FadeAnimation.FadeBlueToGreen | RP2040_Zero_Project.c:52-56 | the third for loop appends exactly the 255 words of the blue-to-green fade, in order |
| FadeAnimation.FadeLoopBody | RP2040_Zero_Project.c:39-57 | one iteration of the while (1) body appends exactly FadePass(), the 765 words of the three fades, to the FIFO |

## Left out

- `stdio_init_all`, `puts`, `pio_add_program` and `ws2812_program_init` (RP2040_Zero_Project.c:26-37): these are hardware and console set-up through Pico SDK calls whose code is not part of this model.
- The blocking in `pio_sm_put_blocking` and the state machine draining the FIFO at 800 kHz: these are about hardware timing and backpressure. The model records a write only as an append to `TxFifo.sent`, and it has no bound on the FIFO's depth.
- `sleep_ms(3)` after each step: wall-clock timing has no effect on the sequence of words sent.
- The endless `while (1)`: the model covers one iteration of its body (`FadeLoopBody`), not the divergence. Every iteration sends the same words, because the body starts each loop from `cnt = 0`.
- The PIO program in `ws2812.pio.h` and the RGBW flag `true` passed to `ws2812_program_init`: `ws2812.pio.h` is not part of this model, so neither is how many bits of each FIFO word the state machine shifts out to the LED.
- FadeLoopBody: the three `for` loops of the body are modelled as three methods that `FadeLoopBody` calls in order. The loops are otherwise unchanged. Keeping all three in one method made the proof too costly for the verifier.
- `FadePassAt`, `FadePassDecoded`, `FadePassStep` and `FadePassDistinct` name a word of the pass by the pair (fade, counter value), at position `Base(p) + cnt`, not by a bare integer index. `FadePassSplit` states that these positions are exactly 0..764, fade by fade.
