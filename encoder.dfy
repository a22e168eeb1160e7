/** The WS2812 bit encoder as a specification: which pin writes and delays a
    frame of colours produces, and in which order. A frame is the colours' bits in
    wire order, each turned into one four-event pulse, then the reset. */
module Encoder {
  import opened MachineTypes
  import opened Colors

  /** Something the driver issues: a write setting the pin high, one setting
      it low, or a wait of `ns` nanoseconds. */
  datatype Event = High | Low | Wait(ns: u32)

  datatype Option<T> = None | Some(value: T)

  // The protocol timing table, in nanoseconds.
  const T0H: u32 := 350
  const T1H: u32 := 700
  const T0L: u32 := 800
  const T1L: u32 := 600
  /** The latch pulse as written; the WS2812 datasheet asks for at least 50 us. */
  const RESET: u32 := 50

  /** `1 << bit` for the bit positions of a byte. */
  function Mask(bit: nat): (m: nat)
    requires bit < 8
    ensures m > 0
  {
    if bit == 0 then 1 else 2 * Mask(bit - 1)
  }

  /** The eight masks written out. */
  lemma MaskValues()
    ensures Mask(0) == 1 && Mask(1) == 2 && Mask(2) == 4 && Mask(3) == 8
    ensures Mask(4) == 16 && Mask(5) == 32 && Mask(6) == 64 && Mask(7) == 128
  {
  }

  /** The transmit loop's bit test, `byte & (1 << bit) != 0`: whether the
      bit of weight `1 << bit` is set in `byte`. */
  predicate BitSet(byte: u8, bit: nat)
    requires bit < 8
  {
    (byte / Mask(bit)) % 2 == 1
  }

  /** Masking an 8-bit value with a single-bit mask tests that bit's digit. */
  lemma AndDigit(byte: u8, mask: bv8, weight: nat)
    requires (mask == 1 && weight == 1) || (mask == 2 && weight == 2) || (mask == 4 && weight == 4) ||
             (mask == 8 && weight == 8) || (mask == 16 && weight == 16) || (mask == 32 && weight == 32) ||
             (mask == 64 && weight == 64) || (mask == 128 && weight == 128)
    ensures ((byte as bv8) & mask != 0) <==> (byte / weight) % 2 == 1
  {
  }

  /** The digit test is the source's mask test on an 8-bit value. */
  lemma BitSetIsAnd(byte: u8, bit: nat)
    requires bit < 8
    ensures BitSet(byte, bit) <==> ((byte as bv8) & ((1 as bv8) << bit)) != 0
  {
    MaskValues();
    if bit == 0 {
      AndDigit(byte, 1, 1);
    } else if bit == 1 {
      AndDigit(byte, 2, 2);
    } else if bit == 2 {
      AndDigit(byte, 4, 4);
    } else if bit == 3 {
      AndDigit(byte, 8, 8);
    } else if bit == 4 {
      AndDigit(byte, 16, 16);
    } else if bit == 5 {
      AndDigit(byte, 32, 32);
    } else if bit == 6 {
      AndDigit(byte, 64, 64);
    } else {
      AndDigit(byte, 128, 128);
    }
  }

  /** The bits of one byte in the order the inner loop visits them: position
      7 first, position 0 last. */
  function BitsOf(byte: u8): seq<bool>
  {
    seq(8, m requires 0 <= m < 8 => BitSet(byte, 7 - m))
  }

  /** Visiting position `bit` extends the visited bits by that bit. */
  lemma BitsOfStep(byte: u8, bit: nat)
    requires bit < 8
    ensures BitsOf(byte)[..8 - bit] == BitsOf(byte)[..7 - bit] + [BitSet(byte, bit)]
  {
    var bits := BitsOf(byte);
    assert bits[7 - bit] == BitSet(byte, bit);
    assert bits[..8 - bit] == bits[..7 - bit] + [bits[7 - bit]];
  }

  /** The bits of a run of bytes, byte by byte in order. */
  function BytesBits(bytes: seq<u8>): seq<bool>
  {
    if bytes == [] then []
    else BytesBits(bytes[..|bytes| - 1]) + BitsOf(bytes[|bytes| - 1])
  }

  /** The bits of a whole colour sequence, colour by colour in order. */
  function WireBits(colors: seq<Color>): seq<bool>
  {
    if colors == [] then []
    else WireBits(colors[..|colors| - 1]) + BytesBits(colors[|colors| - 1].Bytes())
  }

  /** How long a bit holds the line high: t1h for a one, t0h for a zero. */
  function HighNs(one: bool): u32
  {
    if one then T1H else T0H
  }

  /** How long a bit holds the line low: t1l for a one, t0l for a zero. */
  function LowNs(one: bool): u32
  {
    if one then T1L else T0L
  }

  /** One bit: high, wait t1h or t0h, low, wait t1l or t0l. */
  function EncodeBit(one: bool): seq<Event>
  {
    [High, Wait(HighNs(one)), Low, Wait(LowNs(one))]
  }

  /** One pulse per bit, in order. */
  function Pulses(bits: seq<bool>): seq<Event>
  {
    if bits == [] then []
    else Pulses(bits[..|bits| - 1]) + EncodeBit(bits[|bits| - 1])
  }

  function EncodeColors(colors: seq<Color>): seq<Event>
  {
    Pulses(WireBits(colors))
  }

  /** The whole output of one `send_color` call: every bit pulse, then the
      line set low and held for the reset time. */
  function Frame(colors: seq<Color>): seq<Event>
  {
    EncodeColors(colors) + [Low, Wait(RESET)]
  }

  /** The delays of a trace, in order. */
  function Waits(t: seq<Event>): seq<u32>
  {
    if t == [] then []
    else Waits(t[..|t| - 1]) + (if t[|t| - 1].Wait? then [t[|t| - 1].ns] else [])
  }

  // ---------------------------------------------------------------------
  // Sequence helpers

  /** A slice that lies inside the left operand of a concatenation. */
  lemma SliceLeft<T>(a: seq<T>, b: seq<T>, lo: nat, hi: nat)
    requires lo <= hi <= |a|
    ensures (a + b)[lo..hi] == a[lo..hi]
  {
    assert forall m :: lo <= m < hi ==> (a + b)[m] == a[m];
  }

  /** The right operand of a concatenation, recovered by slicing. */
  lemma SliceRight<T>(a: seq<T>, b: seq<T>)
    ensures (a + b)[|a|..|a| + |b|] == b
  {
    assert forall m :: 0 <= m < |b| ==> (a + b)[|a|..|a| + |b|][m] == b[m];
  }

  lemma AppendAssoc<T>(a: seq<T>, b: seq<T>, c: seq<T>)
    ensures (a + b) + c == a + (b + c)
  {
  }

  /** Taking the last element off a sequence that ends in `x`. */
  lemma DropLast<T>(a: seq<T>, x: T)
    ensures (a + [x])[..|a|] == a && (a + [x])[|a|] == x
  {
  }

  // ---------------------------------------------------------------------
  // Wire order of the bits

  lemma {:induction false} BytesBitsAt(bytes: seq<u8>, j: nat, m: nat)
    requires j < |bytes| && m < 8
    ensures |BytesBits(bytes)| == 8 * |bytes|
    ensures BytesBits(bytes)[8 * j + m] == BitSet(bytes[j], 7 - m)
  {
    var n := |bytes| - 1;
    var init := bytes[..n];
    if n > 0 {
      BytesBitsAt(init, if j < n then j else 0, m);
    }
    if j < n {
      assert init[j] == bytes[j];
    }
  }

  lemma {:induction false} WireBitsLength(colors: seq<Color>)
    ensures |WireBits(colors)| == 24 * |colors|
  {
    if colors != [] {
      WireBitsLength(colors[..|colors| - 1]);
      BytesBitsAt(colors[|colors| - 1].Bytes(), 0, 0);
    }
  }

  /** Bit `p` of byte `j` of colour `i` is wire bit 24 i + 8 j + (7 - p):
      colours in sequence order, bytes 0, 1, 2, bits from 7 down to 0. */
  lemma {:induction false} WireBitsAt(colors: seq<Color>, i: nat, j: nat, p: nat)
    requires i < |colors| && j < 3 && p < 8
    ensures |WireBits(colors)| == 24 * |colors|
    ensures WireBits(colors)[24 * i + 8 * j + (7 - p)] == BitSet(colors[i].Bytes()[j], p)
  {
    var n := |colors| - 1;
    var init := colors[..n];
    var last := BytesBits(colors[n].Bytes());
    var k := 24 * i + 8 * j + (7 - p);
    WireBitsLength(colors);
    WireBitsLength(init);
    assert WireBits(colors) == WireBits(init) + last;
    if i < n {
      WireBitsAt(init, i, j, p);
      assert init[i] == colors[i];
      assert WireBits(colors)[k] == WireBits(init)[k];
    } else {
      BytesBitsAt(colors[n].Bytes(), j, 7 - p);
      assert k - 24 * n == 8 * j + (7 - p);
      assert WireBits(colors)[k] == last[k - 24 * n];
    }
  }

  // ---------------------------------------------------------------------
  // Pulses

  lemma {:induction false} PulsesLength(bits: seq<bool>)
    ensures |Pulses(bits)| == 4 * |bits|
  {
    if bits != [] {
      PulsesLength(bits[..|bits| - 1]);
    }
  }

  /** Appending one bit appends its pulse. */
  lemma PulsesSnoc(bits: seq<bool>, x: bool)
    ensures Pulses(bits + [x]) == Pulses(bits) + EncodeBit(x)
  {
    DropLast(bits, x);
  }

  /** Encoding is a homomorphism: a concatenation of bit runs encodes to the
      concatenation of their pulses. */
  lemma {:induction false} PulsesAppend(a: seq<bool>, b: seq<bool>)
    ensures Pulses(a + b) == Pulses(a) + Pulses(b)
    decreases |b|
  {
    if b == [] {
      assert a + b == a;
    } else {
      var init, x := b[..|b| - 1], b[|b| - 1];
      assert a + b == (a + init) + [x];
      PulsesAppend(a, init);
      PulsesSnoc(a + init, x);
      var pa, pi, e := Pulses(a), Pulses(init), EncodeBit(x);
      assert Pulses(b) == pi + e;
      assert (pa + pi) + e == pa + (pi + e);
    }
  }

  /** Pulse `n` of the stream encodes bit `n`. */
  lemma {:induction false} PulsesAt(bits: seq<bool>, n: nat)
    requires n < |bits|
    ensures |Pulses(bits)| == 4 * |bits|
    ensures Pulses(bits)[4 * n..4 * n + 4] == EncodeBit(bits[n])
  {
    var last := |bits| - 1;
    var init := bits[..last];
    PulsesLength(bits);
    PulsesLength(init);
    if n < last {
      PulsesAt(init, n);
      SliceLeft(Pulses(init), EncodeBit(bits[last]), 4 * n, 4 * n + 4);
      assert init[n] == bits[n];
    } else {
      SliceRight(Pulses(init), EncodeBit(bits[last]));
    }
  }

  // ---------------------------------------------------------------------
  // Properties of a frame

  /** A frame for N colours is 24 N pulses of four events, then two more. */
  lemma FrameLength(colors: seq<Color>)
    ensures |Frame(colors)| == 96 * |colors| + 2
  {
    WireBitsLength(colors);
    PulsesLength(WireBits(colors));
  }

  /** The pulse for bit `p` of byte `j` of colour `i` is the four events from
      96 i + 32 j + 4 (7 - p): colours go in sequence order, bytes 0, 1, 2,
      bits from 7 down to 0. A set bit is high for t1h then low for t1l, a
      clear bit high for t0h then low for t0l. */
  lemma FramePulse(colors: seq<Color>, i: nat, j: nat, p: nat)
    requires i < |colors| && j < 3 && p < 8
    ensures var k := 96 * i + 32 * j + 4 * (7 - p);
      k + 4 <= |Frame(colors)| &&
      Frame(colors)[k..k + 4] ==
        if BitSet(colors[i].Bytes()[j], p) then [High, Wait(700), Low, Wait(600)]
        else [High, Wait(350), Low, Wait(800)]
  {
    var bits := WireBits(colors);
    var n := 24 * i + 8 * j + (7 - p);
    WireBitsAt(colors, i, j, p);
    PulsesAt(bits, n);
    SliceLeft(Pulses(bits), [Low, Wait(RESET)], 4 * n, 4 * n + 4);
  }

  /** Every frame, including the empty one, ends by driving the line low and
      holding it for the reset time. */
  lemma FrameEndsLow(colors: seq<Color>)
    ensures |Frame(colors)| >= 2
    ensures Frame(colors)[|Frame(colors)| - 2..] == [Low, Wait(50)]
    ensures colors == [] ==> Frame(colors) == [Low, Wait(50)]
  {
  }

  /** In a run of pulses every high event starts a pulse: a wait, low, and a
      wait follow it. */
  lemma {:induction false} PulsesHigh(bits: seq<bool>, k: nat)
    requires k < |Pulses(bits)| && Pulses(bits)[k] == High
    ensures k % 4 == 0 && k + 3 < |Pulses(bits)|
    ensures Pulses(bits)[k + 1].Wait? && Pulses(bits)[k + 2] == Low && Pulses(bits)[k + 3].Wait?
  {
    var init, x := bits[..|bits| - 1], bits[|bits| - 1];
    var pi, e := Pulses(init), EncodeBit(x);
    PulsesLength(init);
    assert Pulses(bits) == pi + e;
    if k < |pi| {
      PulsesHigh(init, k);
      assert Pulses(bits)[k + 1] == pi[k + 1] && Pulses(bits)[k + 2] == pi[k + 2];
      assert Pulses(bits)[k + 3] == pi[k + 3];
    } else {
      assert Pulses(bits)[k] == e[k - |pi|];
      assert k == |pi|;
    }
  }

  /** The line is never left high: every high event starts a pulse whose
      next events are a wait, low, and a wait. */
  lemma HighIsFollowedByLow(colors: seq<Color>, k: nat)
    requires k < |Frame(colors)| && Frame(colors)[k] == High
    ensures k % 4 == 0 && k + 3 < |Frame(colors)|
    ensures Frame(colors)[k + 1].Wait? && Frame(colors)[k + 2] == Low && Frame(colors)[k + 3].Wait?
  {
    var pulses := Pulses(WireBits(colors));
    var f := Frame(colors);
    assert f == pulses + [Low, Wait(RESET)];
    if k >= |pulses| {
      assert false;
    }
    assert pulses[k] == High;
    PulsesHigh(WireBits(colors), k);
    assert f[k + 1] == pulses[k + 1] && f[k + 2] == pulses[k + 2] && f[k + 3] == pulses[k + 3];
  }

  /** A one-colour frame of 0xA5, 0x00, 0xFF sends 0xA5's bits first, most
      significant first, then 0x00's, then 0xFF's. */
  lemma ExampleWireOrder()
    ensures WireBits([Color(0xA5, 0x00, 0xFF)]) ==
      [true, false, true, false, false, true, false, true] +
      [false, false, false, false, false, false, false, false] +
      [true, true, true, true, true, true, true, true]
  {
    var c := Color(0xA5, 0x00, 0xFF);
    assert [c][..0] == [];
    assert WireBits([c]) == BytesBits(c.Bytes());
    ColorBits(c);
    MaskValues();
    assert BitsOf(0xA5) == [true, false, true, false, false, true, false, true];
    assert BitsOf(0x00) == [false, false, false, false, false, false, false, false];
    assert BitsOf(0xFF) == [true, true, true, true, true, true, true, true];
  }

  // ---------------------------------------------------------------------
  // Counts and duration

  /** How many of the bits are ones. */
  function Ones(bits: seq<bool>): nat
  {
    multiset(bits)[true]
  }

  /** The total time the trace holds the line, in nanoseconds. */
  function Duration(t: seq<Event>): nat
  {
    if t == [] then 0
    else Duration(t[..|t| - 1]) + (if t[|t| - 1].Wait? then t[|t| - 1].ns else 0)
  }

  /** One more bit adds one to the count of ones exactly when it is a one. */
  lemma OnesSnoc(bits: seq<bool>, x: bool)
    ensures Ones(bits + [x]) == Ones(bits) + if x then 1 else 0
  {
    assert multiset(bits + [x]) == multiset(bits) + multiset{x};
  }

  lemma {:induction false} PulsesCounts(bits: seq<bool>)
    ensures multiset(Pulses(bits))[High] == |bits|
    ensures multiset(Pulses(bits))[Low] == |bits|
  {
    if bits != [] {
      var init := bits[..|bits| - 1];
      PulsesCounts(init);
      assert Pulses(bits) == Pulses(init) + EncodeBit(bits[|bits| - 1]);
    }
  }

  /** A one-bit pulse lasts 1300 ns, a zero-bit pulse 1150 ns. */
  lemma PulseDuration(x: bool)
    ensures Duration(EncodeBit(x)) == if x then 1300 else 1150
  {
    var e := EncodeBit(x);
    assert e[..3][..2] == e[..2] && e[..2][..1] == e[..1] && e[..1][..0] == [];
    assert Duration(e[..1]) == 0;
    assert Duration(e[..2]) == e[1].ns;
    assert Duration(e[..3]) == e[1].ns;
    assert e[..4] == e;
  }

  lemma {:induction false} PulsesDuration(bits: seq<bool>)
    ensures Duration(Pulses(bits)) == 1150 * |bits| + 150 * Ones(bits)
  {
    if bits != [] {
      var init := bits[..|bits| - 1];
      var x := bits[|bits| - 1];
      PulsesDuration(init);
      assert bits == init + [x];
      OnesSnoc(init, x);
      assert Pulses(bits) == Pulses(init) + EncodeBit(x);
      DurationAppend(Pulses(init), EncodeBit(x));
      PulseDuration(x);
      assert Duration(Pulses(bits)) == Duration(Pulses(init)) + if x then 1300 else 1150;
    }
  }

  lemma {:induction false} DurationAppend(a: seq<Event>, b: seq<Event>)
    ensures Duration(a + b) == Duration(a) + Duration(b)
    decreases |b|
  {
    if b == [] {
      assert a + b == a;
    } else {
      var init := b[..|b| - 1];
      var ab := a + b;
      DurationAppend(a, init);
      assert ab[..|ab| - 1] == a + init;
      assert ab[|ab| - 1] == b[|b| - 1];
      assert Duration(ab) == Duration(ab[..|ab| - 1]) + Duration([ab[|ab| - 1]]);
    }
  }

  lemma {:induction false} WaitsAppend(a: seq<Event>, b: seq<Event>)
    ensures Waits(a + b) == Waits(a) + Waits(b)
    decreases |b|
  {
    if b == [] {
      assert a + b == a;
    } else {
      var init := b[..|b| - 1];
      var ab := a + b;
      WaitsAppend(a, init);
      assert ab[..|ab| - 1] == a + init;
      assert ab[|ab| - 1] == b[|b| - 1];
      assert Waits(ab) == Waits(ab[..|ab| - 1]) + Waits([ab[|ab| - 1]]);
    }
  }

  /** A bit asks for two delays: its high time, then its low time. */
  lemma EncodeBitWaits(one: bool)
    ensures Waits(EncodeBit(one)) == [HighNs(one), LowNs(one)]
  {
    var e := EncodeBit(one);
    assert e[..3][..2] == e[..2] && e[..2][..1] == e[..1] && e[..1][..0] == [];
    assert e[..4] == e;
    assert Waits(e[..1]) == [];
    assert Waits(e[..2]) == [e[1].ns];
    assert Waits(e[..3]) == [e[1].ns];
  }

  /** Sending one more bit asks for its two delays after all earlier ones. */
  lemma PulsesWaitsSnoc(bits: seq<bool>, one: bool)
    ensures Waits(Pulses(bits + [one])) == Waits(Pulses(bits)) + [HighNs(one), LowNs(one)]
  {
    PulsesSnoc(bits, one);
    WaitsAppend(Pulses(bits), EncodeBit(one));
    EncodeBitWaits(one);
  }

  /** The delays a run of bits asks for, high time then low time per bit. */
  function Delays(bits: seq<bool>): seq<u32>
  {
    if bits == [] then []
    else Delays(bits[..|bits| - 1]) + [HighNs(bits[|bits| - 1]), LowNs(bits[|bits| - 1])]
  }

  /** The delays of a bit run are exactly the waits in its pulses. */
  lemma {:induction false} DelaysAreWaits(bits: seq<bool>)
    ensures Waits(Pulses(bits)) == Delays(bits)
  {
    if bits != [] {
      var init, x := bits[..|bits| - 1], bits[|bits| - 1];
      DelaysAreWaits(init);
      assert bits == init + [x];
      PulsesWaitsSnoc(init, x);
    }
  }

  lemma {:induction false} DelaysAppend(a: seq<bool>, b: seq<bool>)
    ensures Delays(a + b) == Delays(a) + Delays(b)
    decreases |b|
  {
    if b == [] {
      assert a + b == a;
    } else {
      var init, x := b[..|b| - 1], b[|b| - 1];
      DelaysAppend(a, init);
      assert a + b == (a + init) + [x];
      DropLast(a + init, x);
      var da, di, dx := Delays(a), Delays(init), [HighNs(x), LowNs(x)];
      assert Delays(b) == di + dx;
      assert Delays(a + b) == Delays(a + init) + dx;
      AppendAssoc(da, di, dx);
    }
  }

  /** A frame asks for every bit's delays in wire order, then the reset. */
  lemma FrameWaits(colors: seq<Color>)
    ensures Waits(Frame(colors)) == Delays(WireBits(colors)) + [RESET]
  {
    var reset := [Low, Wait(RESET)];
    DelaysAreWaits(WireBits(colors));
    WaitsAppend(Pulses(WireBits(colors)), reset);
    assert reset[..1] == [Low] && [Low][..0] == [];
    assert Waits([Low]) == [];
    assert Waits(reset) == [RESET];
  }

  /** A frame for N colours drives the line high 24 N times and low
      24 N + 1 times. */
  lemma FrameCounts(colors: seq<Color>)
    ensures multiset(Frame(colors))[High] == 24 * |colors|
    ensures multiset(Frame(colors))[Low] == 24 * |colors| + 1
  {
    var bits := WireBits(colors);
    WireBitsLength(colors);
    PulsesCounts(bits);
    assert multiset(Frame(colors)) == multiset(Pulses(bits)) + multiset([Low, Wait(RESET)]);
  }

  /** A frame lasts 1150 ns per bit, 150 ns more per one-bit, plus the reset
      time. */
  lemma FrameDuration(colors: seq<Color>)
    ensures Duration(Frame(colors)) == 27600 * |colors| + 150 * Ones(WireBits(colors)) + 50
  {
    var bits := WireBits(colors);
    var pulses := Pulses(bits);
    var reset := [Low, Wait(RESET)];
    WireBitsLength(colors);
    PulsesDuration(bits);
    DurationAppend(pulses, reset);
    ResetDuration();
    assert Frame(colors) == pulses + reset;
  }

  lemma ResetDuration()
    ensures Duration([Low, Wait(RESET)]) == RESET
  {
    var reset := [Low, Wait(RESET)];
    assert reset[..1] == [Low] && [Low][..0] == [];
    assert Duration([Low]) == 0;
  }

  // ---------------------------------------------------------------------
  // Decoding: a frame determines the colours it was made from

  /** Reads one pulse back as a bit: high for t1h then low for t1l is a one,
      high for t0h then low for t0l a zero, anything else is not a bit. */
  function DecodeBit(pulse: seq<Event>): (r: Option<bool>)
    ensures r.Some? ==> EncodeBit(r.value) == pulse
  {
    if |pulse| == 4 && pulse[0] == High && pulse[2] == Low && pulse[1].Wait? && pulse[3].Wait? then
      if pulse[1].ns == T1H && pulse[3].ns == T1L then Some(true)
      else if pulse[1].ns == T0H && pulse[3].ns == T0L then Some(false)
      else None
    else None
  }

  /** Reads a run of pulses back as bits. */
  function DecodePulses(t: seq<Event>): Option<seq<bool>>
    decreases |t|
  {
    if t == [] then Some([])
    else if |t| < 4 then None
    else match (DecodePulses(t[..|t| - 4]), DecodeBit(t[|t| - 4..]))
      case (Some(bits), Some(x)) => Some(bits + [x])
      case _ => None
  }

  /** Eight bits, most significant first, as a byte. */
  function ByteOf(bits: seq<bool>): u8
    requires |bits| == 8
  {
    0x80 * Digit(bits[0]) + 0x40 * Digit(bits[1]) + 0x20 * Digit(bits[2]) + 0x10 * Digit(bits[3]) +
    0x08 * Digit(bits[4]) + 0x04 * Digit(bits[5]) + 0x02 * Digit(bits[6]) + Digit(bits[7])
  }

  /** A bit as a binary digit. */
  function Digit(bit: bool): nat
  {
    if bit then 1 else 0
  }

  /** Reads wire bits back as colours, 24 bits each. */
  function FromWire(bits: seq<bool>): Option<seq<Color>>
    decreases |bits|
  {
    if bits == [] then Some([])
    else if |bits| < 24 then None
    else match FromWire(bits[..|bits| - 24])
      case None => None
      case Some(colors) =>
        var c := bits[|bits| - 24..];
        Some(colors + [Color(ByteOf(c[..8]), ByteOf(c[8..16]), ByteOf(c[16..]))])
  }

  /** Reads a whole frame back: pulses, then the reset pair. */
  function DecodeFrame(t: seq<Event>): Option<seq<Color>>
  {
    if |t| < 2 || t[|t| - 2..] != [Low, Wait(RESET)] then None
    else match DecodePulses(t[..|t| - 2])
      case None => None
      case Some(bits) => FromWire(bits)
  }

  lemma DecodeBitRoundTrip(x: bool)
    ensures DecodeBit(EncodeBit(x)) == Some(x)
  {
  }

  lemma {:induction false} DecodePulsesRoundTrip(bits: seq<bool>)
    ensures DecodePulses(Pulses(bits)) == Some(bits)
  {
    if bits != [] {
      var init := bits[..|bits| - 1];
      var x := bits[|bits| - 1];
      assert bits == init + [x];
      var t := Pulses(bits);
      PulsesSnoc(init, x);
      PulsesLength(init);
      SliceRight(Pulses(init), EncodeBit(x));
      assert t[..|t| - 4] == Pulses(init);
      DecodePulsesRoundTrip(init);
      DecodeBitRoundTrip(x);
    }
  }

  /** Halving a byte's quotients by the powers of two steps to the next one. */
  lemma Halvings(byte: u8)
    ensures byte / 2 / 2 == byte / 4 && byte / 4 / 2 == byte / 8 && byte / 8 / 2 == byte / 16
    ensures byte / 16 / 2 == byte / 32 && byte / 32 / 2 == byte / 64 && byte / 64 / 2 == byte / 128
    ensures byte / 128 < 2
  {
  }

  /** A byte is the weighted sum of its binary digits. */
  lemma BinaryDigits(byte: u8)
    ensures byte == 128 * ((byte / 128) % 2) + 64 * ((byte / 64) % 2) + 32 * ((byte / 32) % 2) +
                    16 * ((byte / 16) % 2) + 8 * ((byte / 8) % 2) + 4 * ((byte / 4) % 2) +
                    2 * ((byte / 2) % 2) + byte % 2
  {
    Halvings(byte);
    var q1, q2, q3, q4 := byte / 2, byte / 4, byte / 8, byte / 16;
    var q5, q6, q7 := byte / 32, byte / 64, byte / 128;
    var d0, d1, d2, d3 := byte % 2, q1 % 2, q2 % 2, q3 % 2;
    var d4, d5, d6, d7 := q4 % 2, q5 % 2, q6 % 2, q7 % 2;
    assert q7 == d7;
    assert q6 == 2 * d7 + d6;
    assert q5 == 4 * d7 + 2 * d6 + d5;
    assert q4 == 8 * d7 + 4 * d6 + 2 * d5 + d4;
    assert q3 == 16 * d7 + 8 * d6 + 4 * d5 + 2 * d4 + d3;
    assert q2 == 32 * d7 + 16 * d6 + 8 * d5 + 4 * d4 + 2 * d3 + d2;
    assert q1 == 64 * d7 + 32 * d6 + 16 * d5 + 8 * d4 + 4 * d3 + 2 * d2 + d1;
  }

  /** The bits of a byte are its binary digits, most significant first. */
  lemma BitsOfDigits(byte: u8)
    ensures var bits := BitsOf(byte);
      Digit(bits[0]) == (byte / 128) % 2 && Digit(bits[1]) == (byte / 64) % 2 &&
      Digit(bits[2]) == (byte / 32) % 2 && Digit(bits[3]) == (byte / 16) % 2 &&
      Digit(bits[4]) == (byte / 8) % 2 && Digit(bits[5]) == (byte / 4) % 2 &&
      Digit(bits[6]) == (byte / 2) % 2 && Digit(bits[7]) == byte % 2
  {
    MaskValues();
  }

  /** The bits of a byte, reassembled, give the byte back. */
  lemma ByteOfBitsOf(byte: u8)
    ensures ByteOf(BitsOf(byte)) == byte
  {
    BitsOfDigits(byte);
    BinaryDigits(byte);
  }

  lemma ColorBits(c: Color)
    ensures BytesBits(c.Bytes()) == BitsOf(c.r) + BitsOf(c.g) + BitsOf(c.b)
  {
    var bs := c.Bytes();
    assert bs[..2] == [c.r, c.g] && [c.r, c.g][..1] == [c.r] && [c.r][..0] == [];
    assert BytesBits([c.r]) == BitsOf(c.r);
    assert BytesBits([c.r, c.g]) == BitsOf(c.r) + BitsOf(c.g);
  }

  /** The 24 wire bits of a colour read back as that colour. */
  lemma ColorChunkRoundTrip(c: Color)
    ensures var chunk := BytesBits(c.Bytes());
      |chunk| == 24 && Color(ByteOf(chunk[..8]), ByteOf(chunk[8..16]), ByteOf(chunk[16..])) == c
  {
    var chunk := BytesBits(c.Bytes());
    ColorBits(c);
    assert chunk[..8] == BitsOf(c.r) && chunk[8..16] == BitsOf(c.g) && chunk[16..] == BitsOf(c.b);
    ByteOfBitsOf(c.r);
    ByteOfBitsOf(c.g);
    ByteOfBitsOf(c.b);
  }

  lemma {:induction false} FromWireRoundTrip(colors: seq<Color>)
    ensures FromWire(WireBits(colors)) == Some(colors)
  {
    if colors != [] {
      var init := colors[..|colors| - 1];
      var c := colors[|colors| - 1];
      assert colors == init + [c];
      var bits := WireBits(colors);
      var chunk := BytesBits(c.Bytes());
      ColorChunkRoundTrip(c);
      assert bits == WireBits(init) + chunk;
      assert bits[..|bits| - 24] == WireBits(init);
      assert bits[|bits| - 24..] == chunk;
      FromWireRoundTrip(init);
    }
  }

  /** Decodability: the frame for a colour sequence reads back as exactly
      that sequence. */
  lemma DecodeFrameRoundTrip(colors: seq<Color>)
    ensures DecodeFrame(Frame(colors)) == Some(colors)
  {
    var t := Frame(colors);
    var pulses := EncodeColors(colors);
    assert t[..|t| - 2] == pulses;
    DecodePulsesRoundTrip(WireBits(colors));
    FromWireRoundTrip(colors);
  }

  /** Two colour sequences with the same frame are the same sequence. */
  lemma FrameInjective(a: seq<Color>, b: seq<Color>)
    requires Frame(a) == Frame(b)
    ensures a == b
  {
    DecodeFrameRoundTrip(a);
    DecodeFrameRoundTrip(b);
  }
}
