/** The WS2812 driver: a pin, one of three delay strategies fixed at
    construction, and the transmit loops that turn colours into pin writes and delays. */
module Driver {
  import opened MachineTypes
  import opened Colors
  import opened Delay
  import opened Encoder

  /** The output pin. Writes can fail; a healthy pin takes the level written,
      a failing one keeps its level and reports an error. */
  class Pin {
    var level: bool
    const healthy: bool

    constructor (healthy: bool, level: bool)
      ensures this.healthy == healthy && this.level == level
    {
      this.healthy := healthy;
      this.level := level;
    }

    method SetHigh() returns (ok: bool)
      modifies this
      ensures ok == healthy
      ensures level == (healthy || old(level))
    {
      ok := healthy;
      if healthy {
        level := true;
      }
    }

    method SetLow() returns (ok: bool)
      modifies this
      ensures ok == healthy
      ensures level == (!healthy && old(level))
    {
      ok := healthy;
      if healthy {
        level := false;
      }
    }
  }

  /** A blocking delay peripheral. It records every delay asked of it. */
  class Timer {
    var requests: seq<u32>

    constructor ()
      ensures requests == []
    {
      requests := [];
    }

    method DelayNs(ns: u32)
      modifies this
      ensures requests == old(requests) + [ns]
    {
      requests := requests + [ns];
    }
  }

  /** The delay strategy chosen when the driver is built: a delay peripheral
      the driver holds, one the caller passes to every send, or a spin loop
      calibrated by the CPU frequency in Hz. */
  datatype Strategy = OwnDelay(timer: Timer) | ManualDelay | SpinLoop(cpuFreq: u64)

  /** Spin-loop iterations for a run of delays. */
  function CyclesOf(cpuFreq: u64, waits: seq<u32>): nat
  {
    if waits == [] then 0
    else CyclesOf(cpuFreq, waits[..|waits| - 1]) + CycleCount(cpuFreq, waits[|waits| - 1])
  }

  lemma {:induction false} CyclesOfAppend(cpuFreq: u64, a: seq<u32>, b: seq<u32>)
    ensures CyclesOf(cpuFreq, a + b) == CyclesOf(cpuFreq, a) + CyclesOf(cpuFreq, b)
    decreases |b|
  {
    if b == [] {
      assert a + b == a;
    } else {
      var init := b[..|b| - 1];
      var ab := a + b;
      CyclesOfAppend(cpuFreq, a, init);
      assert ab[..|ab| - 1] == a + init;
    }
  }

  /** Ending the bit pulses with the reset pair completes the frame, in the
      events issued and in the delays asked for. */
  lemma FrameTail(colors: seq<Color>, t0: seq<Event>, r0: seq<u32>)
    ensures t0 + Pulses(WireBits(colors)) + [Low] + [Wait(RESET)] == t0 + Frame(colors)
    ensures r0 + Delays(WireBits(colors)) + [RESET] == r0 + Waits(Frame(colors))
  {
    var bits := WireBits(colors);
    FrameWaits(colors);
    AppendAssoc(t0 + Pulses(bits), [Low], [Wait(RESET)]);
    AppendAssoc(t0, Pulses(bits), [Low, Wait(RESET)]);
    AppendAssoc(r0, Delays(bits), [RESET]);
  }

  class Ws2812 {
    const led: Pin
    const strategy: Strategy
    /** The pin writes and delays the driver has issued, in order. The line
        follows it only while the pin is healthy: a failing pin ignores the
        writes. */
    ghost var trace: seq<Event>
    /** Spin-loop iterations run so far (spin-loop strategy only). */
    ghost var spun: nat

    /** `new(led, delay)` with the driver holding the delay peripheral. */
    constructor WithOwnDelay(led: Pin, delay: Timer)
      ensures this.led == led && strategy == OwnDelay(delay)
      ensures trace == [] && spun == 0
    {
      this.led := led;
      strategy := OwnDelay(delay);
      trace := [];
      spun := 0;
    }

    /** `new(led)` for the strategy where each send gets its own delay. */
    constructor WithManualDelay(led: Pin)
      ensures this.led == led && strategy == ManualDelay
      ensures trace == [] && spun == 0
    {
      this.led := led;
      strategy := ManualDelay;
      trace := [];
      spun := 0;
    }

    /** `new(led, cpu_freq)` for the spin-loop strategy. */
    constructor WithSpinLoop(led: Pin, cpuFreq: u64)
      ensures this.led == led && strategy == SpinLoop(cpuFreq)
      ensures trace == [] && spun == 0
    {
      this.led := led;
      strategy := SpinLoop(cpuFreq);
      trace := [];
      spun := 0;
    }

    /** `destroy`: hands the pin back. */
    method Destroy() returns (pin: Pin)
      ensures pin == led
    {
      pin := led;
    }

    /** The objects the owned-delay strategy writes besides the driver. */
    function Timers(): set<Timer>
    {
      if strategy.OwnDelay? then {strategy.timer} else {}
    }

    /** Spin-loop iterations the delays of `t` cost under this strategy. */
    function Spins(t: seq<Event>): nat
    {
      if strategy.SpinLoop? then CyclesOf(strategy.cpuFreq, Waits(t)) else 0
    }

    /** `led_high`: the write's result is discarded. */
    method LedHigh()
      modifies this, led
      ensures trace == old(trace) + [High] && spun == old(spun)
      ensures led.level == (led.healthy || old(led.level))
    {
      var _ := led.SetHigh();
      trace := trace + [High];
    }

    /** `led_low`: the write's result is discarded. */
    method LedLow()
      modifies this, led
      ensures trace == old(trace) + [Low] && spun == old(spun)
      ensures led.level == (!led.healthy && old(led.level))
    {
      var _ := led.SetLow();
      trace := trace + [Low];
    }

    /** `delay_ns` for the two strategies that have one: the held peripheral
        waits, or the spin loop runs `CycleCount` iterations. */
    method DelayNs(ns: u32)
      requires !strategy.ManualDelay?
      modifies this, Timers()
      ensures trace == old(trace) + [Wait(ns)]
      ensures strategy.OwnDelay? ==> strategy.timer.requests == old(strategy.timer.requests) + [ns]
      ensures spun == old(spun) + if strategy.SpinLoop? then CycleCount(strategy.cpuFreq, ns) else 0
    {
      if strategy.OwnDelay? {
        strategy.timer.DelayNs(ns);
      } else {
        var iterations := SpinDelay(strategy.cpuFreq, ns);
        spun := spun + iterations;
      }
      trace := trace + [Wait(ns)];
    }

    /** A wait on the delay the caller passed to this send. */
    method DelayWith(delay: Timer, ns: u32)
      requires strategy.ManualDelay?
      modifies this, delay
      ensures trace == old(trace) + [Wait(ns)] && spun == old(spun)
      ensures delay.requests == old(delay.requests) + [ns]
    {
      delay.DelayNs(ns);
      trace := trace + [Wait(ns)];
    }

    /** Spin-loop iterations one bit costs under this strategy. */
    function BitSpins(one: bool): nat
    {
      if strategy.SpinLoop? then
        CycleCount(strategy.cpuFreq, HighNs(one)) + CycleCount(strategy.cpuFreq, LowNs(one))
      else 0
    }

    /** Spin-loop iterations a run of bits costs under this strategy. */
    function BitsSpins(bits: seq<bool>): nat
    {
      if bits == [] then 0 else BitsSpins(bits[..|bits| - 1]) + BitSpins(bits[|bits| - 1])
    }

    /** The spins of a bit run are the spins of the waits in its pulses. */
    lemma {:induction false} BitsSpinsAreSpins(bits: seq<bool>)
      ensures Spins(Pulses(bits)) == BitsSpins(bits)
    {
      if bits != [] {
        var init, one := bits[..|bits| - 1], bits[|bits| - 1];
        BitsSpinsAreSpins(init);
        assert bits == init + [one];
        PulsesWaitsSnoc(init, one);
        if strategy.SpinLoop? {
          var f, ws := strategy.cpuFreq, [HighNs(one), LowNs(one)];
          assert ws[..1] == [ws[0]] && [ws[0]][..0] == [];
          assert CyclesOf(f, [ws[0]]) == CycleCount(f, ws[0]);
          assert CyclesOf(f, ws) == CycleCount(f, ws[0]) + CycleCount(f, ws[1]);
          CyclesOfAppend(f, Waits(Pulses(init)), ws);
        }
      }
    }

    lemma {:induction false} BitsSpinsAppend(a: seq<bool>, b: seq<bool>)
      ensures BitsSpins(a + b) == BitsSpins(a) + BitsSpins(b)
      decreases |b|
    {
      if b == [] {
        assert a + b == a;
      } else {
        var init, x := b[..|b| - 1], b[|b| - 1];
        BitsSpinsAppend(a, init);
        assert a + b == (a + init) + [x];
        DropLast(a + init, x);
      }
    }

    /** The body of the innermost transmit loop, for one bit. */
    method SendBit(one: bool)
      requires !strategy.ManualDelay?
      modifies this, led, Timers()
      ensures trace == old(trace) + EncodeBit(one)
      ensures strategy.OwnDelay? ==>
                strategy.timer.requests == old(strategy.timer.requests) + [HighNs(one), LowNs(one)]
      ensures spun == old(spun) + BitSpins(one)
      ensures !led.healthy ==> led.level == old(led.level)
    {
      LedHigh();
      DelayNs(HighNs(one));
      LedLow();
      DelayNs(LowNs(one));
    }

    /** The same bit, waiting on the caller's delay. */
    method SendBitWith(one: bool, delay: Timer)
      requires strategy.ManualDelay?
      modifies this, led, delay
      ensures trace == old(trace) + EncodeBit(one) && spun == old(spun)
      ensures delay.requests == old(delay.requests) + [HighNs(one), LowNs(one)]
      ensures !led.healthy ==> led.level == old(led.level)
    {
      LedHigh();
      DelayWith(delay, HighNs(one));
      LedLow();
      DelayWith(delay, LowNs(one));
    }

    /** The spins of a frame: every bit's, then the reset's. */
    lemma FrameSpins(colors: seq<Color>)
      ensures Spins(Frame(colors)) ==
        BitsSpins(WireBits(colors)) + if strategy.SpinLoop? then CycleCount(strategy.cpuFreq, RESET) else 0
    {
      FrameWaits(colors);
      BitsSpinsAreSpins(WireBits(colors));
      DelaysAreWaits(WireBits(colors));
      if strategy.SpinLoop? {
        var f := strategy.cpuFreq;
        CyclesOfAppend(f, Delays(WireBits(colors)), [RESET]);
        assert [RESET][..0] == [];
        assert CyclesOf(f, [RESET]) == CycleCount(f, RESET);
      }
    }

    /** The innermost transmit loop: bit 7 down to bit 0 of one byte, each
        tested with `byte & (1 << bit)` and sent as its pulse. */
    method SendByte(byte: u8)
      requires !strategy.ManualDelay?
      modifies this, led, Timers()
      ensures trace == old(trace) + Pulses(BitsOf(byte))
      ensures strategy.OwnDelay? ==>
                strategy.timer.requests == old(strategy.timer.requests) + Delays(BitsOf(byte))
      ensures spun == old(spun) + BitsSpins(BitsOf(byte))
      ensures !led.healthy ==> led.level == old(led.level)
    {
      ghost var t0, s0 := trace, spun;
      ghost var r0 := if strategy.OwnDelay? then strategy.timer.requests else [];
      ghost var sent: seq<bool> := [];
      for bit := 8 downto 0
        invariant sent == BitsOf(byte)[..8 - bit]
        invariant trace == t0 + Pulses(sent) && spun == s0 + BitsSpins(sent)
        invariant strategy.OwnDelay? ==> strategy.timer.requests == r0 + Delays(sent)
        invariant !led.healthy ==> led.level == old(led.level)
      {
        var one := BitSet(byte, bit);
        SendBit(one);
        PulsesSnoc(sent, one);
        DropLast(sent, one);
        AppendAssoc(t0, Pulses(sent), EncodeBit(one));
        AppendAssoc(r0, Delays(sent), [HighNs(one), LowNs(one)]);
        BitsOfStep(byte, bit);
        sent := sent + [one];
      }
      assert BitsOf(byte)[..8] == BitsOf(byte);
    }

    /** The same loop, waiting on the caller's delay. */
    method SendByteWith(byte: u8, delay: Timer)
      requires strategy.ManualDelay?
      modifies this, led, delay
      ensures trace == old(trace) + Pulses(BitsOf(byte)) && spun == old(spun)
      ensures delay.requests == old(delay.requests) + Delays(BitsOf(byte))
      ensures !led.healthy ==> led.level == old(led.level)
    {
      ghost var t0, r0 := trace, delay.requests;
      ghost var sent: seq<bool> := [];
      for bit := 8 downto 0
        invariant sent == BitsOf(byte)[..8 - bit]
        invariant trace == t0 + Pulses(sent) && spun == old(spun)
        invariant delay.requests == r0 + Delays(sent)
        invariant !led.healthy ==> led.level == old(led.level)
      {
        var one := BitSet(byte, bit);
        SendBitWith(one, delay);
        PulsesSnoc(sent, one);
        DropLast(sent, one);
        AppendAssoc(t0, Pulses(sent), EncodeBit(one));
        AppendAssoc(r0, Delays(sent), [HighNs(one), LowNs(one)]);
        BitsOfStep(byte, bit);
        sent := sent + [one];
      }
      assert BitsOf(byte)[..8] == BitsOf(byte);
    }

    /** The middle transmit loop: each byte of a colour, in array order. */
    method SendBytes(bytes: seq<u8>)
      requires !strategy.ManualDelay?
      modifies this, led, Timers()
      ensures trace == old(trace) + Pulses(BytesBits(bytes))
      ensures strategy.OwnDelay? ==>
                strategy.timer.requests == old(strategy.timer.requests) + Delays(BytesBits(bytes))
      ensures spun == old(spun) + BitsSpins(BytesBits(bytes))
      ensures !led.healthy ==> led.level == old(led.level)
    {
      ghost var t0, s0 := trace, spun;
      ghost var r0 := if strategy.OwnDelay? then strategy.timer.requests else [];
      ghost var sent: seq<bool> := [];
      for j := 0 to |bytes|
        invariant sent == BytesBits(bytes[..j])
        invariant trace == t0 + Pulses(sent) && spun == s0 + BitsSpins(sent)
        invariant strategy.OwnDelay? ==> strategy.timer.requests == r0 + Delays(sent)
        invariant !led.healthy ==> led.level == old(led.level)
      {
        SendByte(bytes[j]);
        PulsesAppend(sent, BitsOf(bytes[j]));
        DelaysAppend(sent, BitsOf(bytes[j]));
        BitsSpinsAppend(sent, BitsOf(bytes[j]));
        AppendAssoc(t0, Pulses(sent), Pulses(BitsOf(bytes[j])));
        AppendAssoc(r0, Delays(sent), Delays(BitsOf(bytes[j])));
        assert bytes[..j + 1][..j] == bytes[..j];
        sent := sent + BitsOf(bytes[j]);
      }
      assert bytes[..|bytes|] == bytes;
    }

    /** The same loop, waiting on the caller's delay. */
    method SendBytesWith(bytes: seq<u8>, delay: Timer)
      requires strategy.ManualDelay?
      modifies this, led, delay
      ensures trace == old(trace) + Pulses(BytesBits(bytes)) && spun == old(spun)
      ensures delay.requests == old(delay.requests) + Delays(BytesBits(bytes))
      ensures !led.healthy ==> led.level == old(led.level)
    {
      ghost var t0, r0 := trace, delay.requests;
      ghost var sent: seq<bool> := [];
      for j := 0 to |bytes|
        invariant sent == BytesBits(bytes[..j])
        invariant trace == t0 + Pulses(sent) && spun == old(spun)
        invariant delay.requests == r0 + Delays(sent)
        invariant !led.healthy ==> led.level == old(led.level)
      {
        SendByteWith(bytes[j], delay);
        PulsesAppend(sent, BitsOf(bytes[j]));
        DelaysAppend(sent, BitsOf(bytes[j]));
        AppendAssoc(t0, Pulses(sent), Pulses(BitsOf(bytes[j])));
        AppendAssoc(r0, Delays(sent), Delays(BitsOf(bytes[j])));
        assert bytes[..j + 1][..j] == bytes[..j];
        sent := sent + BitsOf(bytes[j]);
      }
      assert bytes[..|bytes|] == bytes;
    }

    /** The outer transmit loop: every colour, in order. */
    method SendColors(colors: seq<Color>)
      requires !strategy.ManualDelay?
      modifies this, led, Timers()
      ensures trace == old(trace) + Pulses(WireBits(colors))
      ensures strategy.OwnDelay? ==>
                strategy.timer.requests == old(strategy.timer.requests) + Delays(WireBits(colors))
      ensures spun == old(spun) + BitsSpins(WireBits(colors))
      ensures !led.healthy ==> led.level == old(led.level)
    {
      ghost var t0, s0 := trace, spun;
      ghost var r0 := if strategy.OwnDelay? then strategy.timer.requests else [];
      ghost var sent: seq<bool> := [];
      for i := 0 to |colors|
        invariant sent == WireBits(colors[..i])
        invariant trace == t0 + Pulses(sent) && spun == s0 + BitsSpins(sent)
        invariant strategy.OwnDelay? ==> strategy.timer.requests == r0 + Delays(sent)
        invariant !led.healthy ==> led.level == old(led.level)
      {
        var bits := BytesBits(colors[i].Bytes());
        SendBytes(colors[i].Bytes());
        PulsesAppend(sent, bits);
        DelaysAppend(sent, bits);
        BitsSpinsAppend(sent, bits);
        AppendAssoc(t0, Pulses(sent), Pulses(bits));
        AppendAssoc(r0, Delays(sent), Delays(bits));
        assert colors[..i + 1][..i] == colors[..i];
        sent := sent + bits;
      }
      assert colors[..|colors|] == colors;
    }

    /** The same loop, waiting on the caller's delay. */
    method SendColorsWith(colors: seq<Color>, delay: Timer)
      requires strategy.ManualDelay?
      modifies this, led, delay
      ensures trace == old(trace) + Pulses(WireBits(colors)) && spun == old(spun)
      ensures delay.requests == old(delay.requests) + Delays(WireBits(colors))
      ensures !led.healthy ==> led.level == old(led.level)
    {
      ghost var t0, r0 := trace, delay.requests;
      ghost var sent: seq<bool> := [];
      for i := 0 to |colors|
        invariant sent == WireBits(colors[..i])
        invariant trace == t0 + Pulses(sent) && spun == old(spun)
        invariant delay.requests == r0 + Delays(sent)
        invariant !led.healthy ==> led.level == old(led.level)
      {
        var bits := BytesBits(colors[i].Bytes());
        SendBytesWith(colors[i].Bytes(), delay);
        PulsesAppend(sent, bits);
        DelaysAppend(sent, bits);
        AppendAssoc(t0, Pulses(sent), Pulses(bits));
        AppendAssoc(r0, Delays(sent), Delays(bits));
        assert colors[..i + 1][..i] == colors[..i];
        sent := sent + bits;
      }
      assert colors[..|colors|] == colors;
    }

    /** `send_color` for the owned-delay and spin-loop strategies: every bit
        of every byte of every colour, then the reset. The driver issues
        exactly `Frame(colors)`, the held peripheral is asked for exactly its
        delays, the spin loop runs exactly the iterations those delays cost,
        a healthy pin is left low and a failing one keeps its level. */
    method SendColor(colors: seq<Color>)
      requires !strategy.ManualDelay?
      modifies this, led, Timers()
      ensures trace == old(trace) + Frame(colors)
      ensures strategy.OwnDelay? ==>
                strategy.timer.requests == old(strategy.timer.requests) + Waits(Frame(colors))
      ensures spun == old(spun) + Spins(Frame(colors))
      ensures led.level == (!led.healthy && old(led.level))
    {
      ghost var t0, r0 := trace, if strategy.OwnDelay? then strategy.timer.requests else [];
      SendColors(colors);
      LedLow();
      DelayNs(RESET);
      FrameTail(colors, t0, r0);
      FrameSpins(colors);
    }

    /** `send_color` for the manual-delay strategy: the same loops, waiting on
        the delay passed in. The driver issues the same `Frame(colors)` as
        with the other strategies, and the passed delay is asked for exactly
        the frame's delays. */
    method SendColorWith(colors: seq<Color>, delay: Timer)
      requires strategy.ManualDelay?
      modifies this, led, delay
      ensures trace == old(trace) + Frame(colors)
      ensures delay.requests == old(delay.requests) + Waits(Frame(colors))
      ensures spun == old(spun)
      ensures led.level == (!led.healthy && old(led.level))
    {
      ghost var t0, r0 := trace, delay.requests;
      SendColorsWith(colors, delay);
      LedLow();
      DelayWith(delay, RESET);
      FrameTail(colors, t0, r0);
    }
  }

  /** `destroy(new(pin, ...))` hands back the very pin given to `new`, under
      every strategy. */
  method NewThenDestroy(pin: Pin, delay: Timer, cpuFreq: u64) returns (owned: Pin, manual: Pin, spin: Pin)
    ensures owned == pin && manual == pin && spin == pin
  {
    var a := new Ws2812.WithOwnDelay(pin, delay);
    owned := a.Destroy();
    var b := new Ws2812.WithManualDelay(pin);
    manual := b.Destroy();
    var c := new Ws2812.WithSpinLoop(pin, cpuFreq);
    spin := c.Destroy();
  }

  /** The two `send_color` forms and all three strategies issue the same
      pin writes and delays, and so does a driver whose pin fails every
      write: the healthy pin ends low, the failing one where it was. */
  method SameWaveform(colors: seq<Color>, good: Pin, bad: Pin, held: Timer, passed: Timer, cpuFreq: u64)
    returns (ghost owned: seq<Event>, ghost manual: seq<Event>, ghost spin: seq<Event>)
    requires good.healthy && !bad.healthy && held != passed
    modifies good, bad, held, passed
    ensures owned == Frame(colors) && manual == Frame(colors) && spin == Frame(colors)
    ensures held.requests == old(held.requests) + Waits(Frame(colors))
    ensures passed.requests == old(passed.requests) + Waits(Frame(colors))
    ensures !good.level && bad.level == old(bad.level)
  {
    var a := new Ws2812.WithOwnDelay(good, held);
    a.SendColor(colors);
    owned := a.trace;
    var b := new Ws2812.WithManualDelay(bad);
    b.SendColorWith(colors, passed);
    manual := b.trace;
    var c := new Ws2812.WithSpinLoop(good, cpuFreq);
    c.SendColor(colors);
    spin := c.trace;
  }
}
