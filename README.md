# WS2812 bit encoder

This project models the transmit path of the `ws2812-rs` driver for WS2812
("NeoPixel") LEDs in Dafny. `send_color` takes an array of 3-byte colours and
writes a waveform to one output pin. It visits every colour in array order,
every byte of a colour in index order, and every bit of a byte from bit 7 down
to bit 0. Each bit becomes a pulse: drive the line high, wait t1h (700 ns) or
t0h (350 ns), drive it low, wait t1l (600 ns) or t0l (800 ns). After the last
bit the line is driven low and held for `reset()` ns. The model reproduces the
50 ns the code uses. The WS2812 datasheet asks for a latch of at least 50 µs,
so this value is far shorter.

The project has five files:

- `types.dfy` (`MachineTypes`): `u8`, `u32` and `u64` as bounded integers.
- `colors.dfy` (`Colors`): `Color`, its byte order, and the named colour
  constants.
- `delay.dfy` (`Delay`): the spin-loop `delay_ns`. The cycle count is
  `(cpu_freq * ns) / 10^9`. The u64 product wraps and the `as u32` cast
  truncates, and both are written out. A counting loop runs exactly that many
  iterations.
- `encoder.dfy` (`Encoder`): the pin writes and delays of a frame, as a pure specification.
  - An `Event` is `High`, `Low` or `Wait(ns)`.
  - `EncodeBit` gives one pulse and `Pulses` a run of them.
  - `WireBits` is the bit order on the wire. `Frame(colors)` is
    `EncodeColors(colors) + [Low, Wait(50)]`.
  - A decoder reads a frame back. Lemmas cover length, order, per-bit timing,
    event counts, total duration, the final low and the round trip.
- `driver.dfy` (`Driver`): the driver as a class.
  - The `Ws2812` class holds a pin, a delay strategy and a ghost `trace` of
    the pin writes and delays it has issued, in order.
  - `SendColor` and `SendColorWith` run the three nested loops, one method per
    loop level. They are proved to append exactly `Frame(colors)`.

Three compile-time features choose how the source waits. The model replaces
them with a `Strategy` fixed when the driver is built:

- `OwnDelay(timer)`: the driver holds a delay peripheral.
- `ManualDelay`: the caller passes a delay to every `send_color`.
- `SpinLoop(cpuFreq)`: a busy loop.

A `Timer` records the delays asked of it, so the proofs can check that the
right peripheral got the right delays. A `Pin` either takes every write or
fails every write (`healthy`), and a failing pin keeps its level. The driver
discards each write's result. So the proofs show that the writes and delays it
issues do not depend on which kind of pin it has. Only a healthy pin actually
follows them, so the line carries the frame only on a healthy pin.

The source tests a bit with `byte & (1 << bit) != 0`. Bytes here are integers
in `0..255`, and the model writes the same test as `(byte / Mask(bit)) % 2 == 1`
with `Mask(bit) == 1 << bit`. `BitSetIsAnd` proves that this equals the mask
test on an 8-bit value. Under the manual-delay strategy each wait goes to the
caller's delay and is also recorded in the driver's trace.

## Model

| member | source | states |
|---|---|---|
| Driver.Ws2812.SendColor | src/lib.rs:66-88 | Sending colours issues exactly the pin writes and delays of `Frame(colors)`, whichever strategy is used. The held delay peripheral is asked for exactly the frame's waits, in order. The spin loop runs exactly the iterations those waits cost. Afterwards a healthy pin is low and a failing pin keeps its level. |
| Driver.Ws2812.SendColorWith | src/lib.rs:91-113 | The manual-delay form issues the same `Frame(colors)` as the other forms. The caller's delay receives exactly the frame's waits, in order. No spin loop runs, and the pin ends as with `SendColor`. |
| Driver.Ws2812.SendColors | src/lib.rs:67-85 | The outer loop over the colours appends the pulses of `WireBits(colors)`, colour by colour in array order. The held timer gets `Delays` of those bits and the spin count grows by their cycles. |
| Driver.Ws2812.SendBytes | src/lib.rs:68-84 | The middle loop sends bytes 0, 1, 2 in index order. It appends the pulses of `BytesBits(bytes)` and the matching delays and spins. |
| Driver.Ws2812.SendByte | src/lib.rs:69-83 | The inner loop visits bit 7 down to bit 0. It appends the pulses of `BitsOf(byte)`, which is most significant bit first, along with the matching delays and spins. |
| Driver.Ws2812.SendBit | src/lib.rs:70-82 | One bit appends `EncodeBit(one)`: high, wait t1h/t0h, low, wait t1l/t0l. It asks the held timer for those two waits in that order. |
| Driver.Ws2812.SendColorsWith | src/lib.rs:92-110 | Like `SendColors`, with every wait sent to the caller's delay. |
| Driver.Ws2812.SendBytesWith | src/lib.rs:93-109 | Like `SendBytes`, with every wait sent to the caller's delay. |
| Driver.Ws2812.SendByteWith | src/lib.rs:94-108 | Like `SendByte`, with every wait sent to the caller's delay. |
| Driver.Ws2812.SendBitWith | src/lib.rs:95-107 | Like `SendBit`, with both waits sent to the caller's delay. |
| Driver.Ws2812.DelayNs | src/lib.rs:182-184 | The owned delay peripheral receives exactly the requested wait. Under the spin strategy the loop runs `CycleCount(cpuFreq, ns)` iterations. Either way the trace records one `Wait(ns)`. |
| Driver.Ws2812.DelayWith | src/lib.rs:98-112 | Under the manual-delay strategy each wait goes exactly once to the delay the caller passed, and the trace records one `Wait(ns)`. |
| Driver.Ws2812.LedHigh | src/lib.rs:188-190 | The driver issues the `High` write whether or not it succeeds, so the trace gains `High` either way. The pin goes high only if it is healthy; a failing pin keeps its level. |
| Driver.Ws2812.LedLow | src/lib.rs:185-187 | The driver issues the `Low` write whether or not it succeeds, so the trace gains `Low` either way. The pin goes low only if it is healthy; a failing pin keeps its level. |
| Driver.Ws2812.WithOwnDelay | src/lib.rs:26-28 | `new` stores the pin and the delay it was given, unchanged, and starts with nothing sent. |
| Driver.Ws2812.WithManualDelay | src/lib.rs:36-38 | `new` stores the pin it was given and starts with nothing sent. |
| Driver.Ws2812.WithSpinLoop | src/lib.rs:45-47 | `new` stores the pin and `cpu_freq`, unchanged, and starts with nothing sent. |
| Driver.Ws2812.Destroy | src/lib.rs:29-31 | `destroy` hands back the pin the driver holds. |
| Driver.NewThenDestroy | src/lib.rs:26-50 | Under all three strategies, `destroy(new(pin, ...))` returns the very pin given to `new`. |
| Driver.SameWaveform | src/lib.rs:66-113 | Each of the following issues the same `Frame(colors)`: the owned-delay driver on a healthy pin, the manual-delay driver on a pin whose writes all fail, and the spin-loop driver. Both delay peripherals receive the frame's waits. The healthy pin ends low and the failing pin keeps its old level. |
| Delay.SpinDelay | src/lib.rs:213-218 | The spin loop runs exactly `CycleCount(cpuFreq, ns)` iterations. When nothing overflows, this is the number of whole CPU cycles in `ns` nanoseconds. |
| Delay.CycleCountIsFloor | src/lib.rs:214-215 | If the product fits and the quotient fits in u32, the cycle count is floor(cpu_freq · ns / 10^9). |
| Delay.CycleCountBound | src/lib.rs:214-215 | Whatever wraps or truncates, the loop never spins more than floor(cpu_freq · ns / 10^9) times. |
| Delay.SixteenMegahertz | src/lib.rs:195-218 | At 16 MHz the four bit phases spin 5, 11, 12 and 9 times, and the 50 ns reset spins 0 times. |
| Delay.ProductWraps | src/lib.rs:214 | If the u64 product overflows, the count can fall to 0 even though the true quotient is positive. |
| Colors.Color.Bytes | src/lib.rs:68 | A colour is sent as its three bytes in array order. |
| Colors.NamedColorBytes | src/lib.rs:120-162 | Each of the eleven named colours, `red` to `brown`, is the fixed byte array the library writes for it. |
| Encoder.BitSetIsAnd | src/lib.rs:70 | The model's digit test on a byte holds exactly when `byte & (1 << bit) != 0` holds on the 8-bit value. |
| Encoder.BitsOfStep | src/lib.rs:69-70 | Visiting bit position `bit` (7 down to 0) with the test `byte & (1 << bit) != 0` extends the bits visited so far by exactly that bit. |
| Encoder.WireBitsAt | src/lib.rs:67-70 | Bit `p` of byte `j` of colour `i` is wire bit 24·i + 8·j + (7 − p). Colours go in array order, bytes in index order, bits MSB first. |
| Encoder.ExampleWireOrder | src/lib.rs:67-70 | The colour `[0xA5, 0x00, 0xFF]` goes out as the bits of 0xA5 MSB first, then eight zeros, then eight ones. |
| Encoder.FrameLength | src/lib.rs:66-88 | A frame for N colours has 96·N + 2 events. |
| Encoder.FramePulse | src/lib.rs:70-82 | The four events at the slot for bit `p` of byte `j` of colour `i` are `High, Wait(700), Low, Wait(600)` for a one and `High, Wait(350), Low, Wait(800)` for a zero. |
| Encoder.FrameEndsLow | src/lib.rs:86-87 | Every frame ends with `Low, Wait(50)`. The frame for no colours is exactly that pair. |
| Encoder.HighIsFollowedByLow | src/lib.rs:72-80 | Every `High` write starts a four-event pulse whose third event is a `Low` write, so no pulse leaves the line high. |
| Encoder.FrameCounts | src/lib.rs:66-88 | A frame for N colours issues 24·N `High` writes and 24·N + 1 `Low` writes. |
| Encoder.FrameDuration | src/lib.rs:66-88 | A frame waits 1150 ns per bit, plus 150 ns per one-bit, plus the 50 ns reset. |
| Encoder.PulseDuration | src/lib.rs:167-178 | A one-bit pulse lasts 700 + 600 ns and a zero-bit pulse lasts 350 + 800 ns. |
| Encoder.FrameWaits | src/lib.rs:66-88 | The waits of a frame, in order, are each wire bit's high time and low time, followed by the reset. |
| Encoder.PulsesAppend | src/lib.rs:67-69 | The encoding of concatenated bit runs is the concatenation of their encodings. |
| Encoder.DecodeBitRoundTrip | src/lib.rs:70-82 | Reading a pulse's timings back recovers the bit it encodes. |
| Encoder.ByteOfBitsOf | src/lib.rs:69-70 | Reassembling the eight bits the mask test extracts, MSB first, gives the byte back. |
| Encoder.DecodeFrameRoundTrip | src/lib.rs:66-88 | Decoding the frame for any colour sequence gives exactly that sequence back. |
| Encoder.FrameInjective | src/lib.rs:66-88 | Two colour sequences with the same frame are equal: the issued frame determines the colours. |

## Left out

- The `embedded_hal` traits `OutputPin` and `DelayNs` are external hardware interfaces. They are modelled by the `Pin` and `Timer` classes, which keep only a level and a list of requested delays.
- Real elapsed time, timing accuracy and `core::hint::spin_loop()` are not modelled. Only the number of spin iterations is counted.
- The `#[cfg(feature = ...)]` selection is replaced by the `Strategy` datatype, chosen when the driver is built. Every variant carries the same struct fields and methods as the feature that defines it.
- Delay.CycleCount: a debug build panics when `cpu_freq * ns` overflows u64. The model follows release builds, which wrap. `ProductWraps` shows the effect.
- Driver.Ws2812.Destroy: Rust consumes `self` when it is called. Dafny has no such ownership, so a destroyed driver stays reachable in the model. The borrow `&'a mut D` becomes a shared `Timer` reference.
- Driver.Ws2812.SendColor: the source takes an array `[Color; N]` with a compile-time `N`. The model takes a sequence of any length.
- A pin either fails every write or takes every write (`healthy`). Faults that come and go between writes are not modelled.
- The `Default` and `Clone` derives on `Color` are generated boilerplate.
- Interrupts, preemption and the `no_std` environment are not modelled: `send_color` is a single synchronous call.
- The encoding of one byte, the source's inner loop, is `Pulses(BitsOf(byte))` and has no separate name.
