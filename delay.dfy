/** The spin-loop delay strategy: a wait of `ns` nanoseconds becomes a number
    of busy-loop iterations computed from the CPU clock frequency. */
module Delay {
  import opened MachineTypes

  const NS_PER_SECOND: nat := 1_000_000_000

  /** `((cpu_freq * ns as u64) / 1_000_000_000) as u32`: the product is taken
      in u64 (wrapping, as a build without overflow checks does), divided,
      and then truncated to its low 32 bits by the cast. */
  function CycleCount(cpuFreq: u64, ns: u32): u32
  {
    ((cpuFreq * ns) % U64_LIMIT / NS_PER_SECOND) % U32_LIMIT
  }

  /** Whatever the wrap-around, the loop never spins longer than the delay
      asked for: the count is at most floor(cpuFreq * ns / 10^9). */
  lemma CycleCountBound(cpuFreq: u64, ns: u32)
    ensures CycleCount(cpuFreq, ns) <= cpuFreq * ns / NS_PER_SECOND
  {
    var p := cpuFreq * ns;
    assert p % U64_LIMIT <= p;
    assert p % U64_LIMIT / NS_PER_SECOND <= p / NS_PER_SECOND;
  }

  /** When neither the u64 product nor the u32 cast loses anything, the cycle
      count is exactly the number of whole CPU cycles in `ns` nanoseconds:
      floor(cpuFreq * ns / 10^9). */
  lemma CycleCountIsFloor(cpuFreq: u64, ns: u32)
    requires cpuFreq * ns < NS_PER_SECOND * U32_LIMIT
    ensures CycleCount(cpuFreq, ns) * NS_PER_SECOND <= cpuFreq * ns
    ensures cpuFreq * ns < (CycleCount(cpuFreq, ns) + 1) * NS_PER_SECOND
  {
    NothingLost(cpuFreq * ns);
  }

  /** A product below 10^9 * 2^32 survives the u64 wrap and, once divided,
      the u32 cast. */
  lemma NothingLost(p: nat)
    requires p < NS_PER_SECOND * U32_LIMIT
    ensures (p % U64_LIMIT / NS_PER_SECOND) % U32_LIMIT == p / NS_PER_SECOND
    ensures p / NS_PER_SECOND * NS_PER_SECOND <= p < (p / NS_PER_SECOND + 1) * NS_PER_SECOND
  {
    assert p % U64_LIMIT == p;
    var q := p / NS_PER_SECOND;
    assert q * NS_PER_SECOND <= p < (q + 1) * NS_PER_SECOND;
    assert q < U32_LIMIT;
  }

  /** A 16 MHz CPU spins 5 times for the 350 ns logic-0 high phase (5.6
      cycles truncated), and not at all for the 50 ns reset. */
  lemma SixteenMegahertz()
    ensures CycleCount(16_000_000, 350) == 5 && CycleCount(16_000_000, 700) == 11
    ensures CycleCount(16_000_000, 800) == 12 && CycleCount(16_000_000, 600) == 9
    ensures CycleCount(16_000_000, 50) == 0
  {
  }

  /** When the u64 product overflows it wraps: 2^62 Hz times 4 ns is 2^64,
      which wraps to 0, so the loop does not spin at all. */
  lemma ProductWraps()
    ensures 0x4000_0000_0000_0000 * 4 / NS_PER_SECOND > 0
    ensures CycleCount(0x4000_0000_0000_0000, 4) == 0
  {
  }

  /** The spin-loop `delay_ns`: runs the loop body exactly `CycleCount` times
      and returns how many iterations it spun. */
  method SpinDelay(cpuFreq: u64, ns: u32) returns (iterations: nat)
    ensures iterations == CycleCount(cpuFreq, ns)
    ensures cpuFreq * ns < NS_PER_SECOND * U32_LIMIT ==>
              iterations * NS_PER_SECOND <= cpuFreq * ns < (iterations + 1) * NS_PER_SECOND
  {
    var product := (cpuFreq * ns) % U64_LIMIT;
    var cycle := product / NS_PER_SECOND;
    var bound := cycle % U32_LIMIT;
    iterations := 0;
    for i := 0 to bound
      invariant iterations == i
    {
      iterations := iterations + 1;
    }
    if cpuFreq * ns < NS_PER_SECOND * U32_LIMIT {
      CycleCountIsFloor(cpuFreq, ns);
    }
  }
}
