/**
 The SPI clock of src/bus_ft232h.c: the divisor chosen for a rate, the rate a divisor comes out
 at, and the clock the chip runs at after the commands it has been sent.
 */
module SpiClock {
  import opened Bytes
  import opened Crc32
  import opened FusionMath
  import opened Mpsse
  import opened SpiBus
  import opened Ft232hSpi

  const MIN_SPI_HZ := 1000
  const MAX_SPI_HZ := 30000000

  // ---------- the clock divisor ----------

  /** DIV_SPI: rounded so that the clock never exceeds what was asked. */
  function DivSpi(hz: nat): nat
    requires hz > 0
  {
    var d := (30000000 + hz - 1) / hz - 1;
    if d < 0 then 0 else d
  }

  /** SPI_HZ_FOR_DIV. */
  function HzForDiv(d: nat): nat {
    30000000 / (d + 1)
  }

  lemma DivBounds(a: nat, b: nat, q: nat)
    requires b > 0 && q == a / b
    ensures q * b <= a < (q + 1) * b
  {}

  lemma MulMonotone(x: nat, y: nat, b: nat)
    requires x <= y
    ensures x * b <= y * b
  {}

  /** The divisor is the smallest whose exact clock does not exceed hz, and it fits the chip's 16 bits. */
  lemma DivSpiExact(hz: nat)
    requires MIN_SPI_HZ <= hz <= MAX_SPI_HZ
    ensures 30000000 <= hz * (DivSpi(hz) + 1)
    ensures hz * DivSpi(hz) < 30000000
    ensures DivSpi(hz) <= 65535
    ensures MIN_SPI_HZ <= HzForDiv(DivSpi(hz)) <= hz
  {
    var a := 30000000 + hz - 1;
    var q := a / hz;
    DivBounds(a, hz, q);
    assert q >= 1;
    Quotient(a, hz, q);
    DivBounds(30000000, q, 30000000 / q);
    FloorBelow(hz, q, 30000000 / q);
  }

  lemma Quotient(a: nat, hz: nat, q: nat)
    requires MIN_SPI_HZ <= hz <= MAX_SPI_HZ && a == 30000000 + hz - 1 && q * hz <= a < (q + 1) * hz && q >= 1
    ensures 30000000 <= hz * q && hz * (q - 1) < 30000000 && q <= 30000
  {
    assert (q + 1) * hz == q * hz + hz;
    assert hz * (q - 1) == q * hz - hz;
    if q > 30000 { MulMonotone(30001, q, hz); }
  }

  lemma FloorBelow(hz: nat, q: nat, f: nat)
    requires q >= 1 && f * q <= 30000000 < (f + 1) * q && 30000000 <= hz * q && q <= 30000
    ensures MIN_SPI_HZ <= f <= hz
  {
    if f > hz { MulMonotone(hz + 1, f, q); }
    if f < MIN_SPI_HZ { MulMonotone(f + 1, MIN_SPI_HZ, q); }
  }

  /** Programming a clock again from the rate it came out at keeps the divisor exactly when that divisor
      divides the master clock; otherwise the clock comes out slower than before, never faster. */
  lemma ReprogrammedDivisor(d: nat)
    requires d <= 29999
    ensures HzForDiv(d) > 0
    ensures DivSpi(HzForDiv(d)) == d <==> 30000000 % (d + 1) == 0
    ensures DivSpi(HzForDiv(d)) >= d
  {
    var n := d + 1;
    var f := 30000000 / n;
    DivBounds(30000000, n, f);
    assert f >= 1;
    var a := 30000000 + f - 1;
    var q := a / f;
    DivBounds(a, f, q);
    Remainder(n, f);
    SlowerOrSame(n, f, q);
  }

  lemma Remainder(n: nat, f: nat)
    requires n > 0 && f == 30000000 / n
    ensures 30000000 % n == 0 <==> f * n == 30000000
  {
    assert 30000000 == n * (30000000 / n) + 30000000 % n;
  }

  lemma SlowerOrSame(n: nat, f: nat, q: nat)
    requires n > 0 && f > 0 && f * n <= 30000000 && q * f <= 30000000 + f - 1 < (q + 1) * f
    ensures q >= n
    ensures q == n <==> f * n == 30000000
  {
    assert (q + 1) * f == q * f + f;
    if q < n { MulMonotone(q + 1, n, f); }
    if f * n == 30000000 && q > n { MulMonotone(n + 1, q, f); }
    if q == n { assert 30000000 - 1 < q * f; }
  }

  /** A rate the divisor does not reach: 4.5 MHz comes out at 4285714 Hz, and that, asked for again, a step slower. */
  lemma ReprogrammedSlower()
    ensures DivSpi(4500000) == 6 && HzForDiv(6) == 4285714
    ensures DivSpi(4285714) == 7 && HzForDiv(7) == 3750000
  {}

  // ---------- the clock in force ----------

  function LowByte(n: nat): byte { ByteOf(n % 256) }
  function HighByte(n: nat): byte { ByteOf((n / 256) % 256) }

  function DivisorOf(lo: byte, hi: byte): nat {
    lo as nat + 256 * (hi as nat)
  }

  /** The divisor's two bytes, as they are emitted, are the divisor. */
  lemma DivisorBytes(d: nat)
    requires d <= 65535
    ensures DivisorOf(LowByte(d), HighByte(d)) == d
  {
    hide ByteOf;
    ByteValue(d % 256);
    ByteValue(d / 256);
    assert (d / 256) % 256 == d / 256;
  }

  /** The divisor the chip runs at: the last one it was sent. */
  function ClockOf(ran: seq<Cmd>): Option<nat> {
    if ran == [] then None
    else if ran[|ran| - 1].ClkDiv? then Some(DivisorOf(ran[|ran| - 1].lo, ran[|ran| - 1].hi))
    else ClockOf(ran[..|ran| - 1])
  }

  lemma {:induction false} ClockAppend(a: seq<Cmd>, b: seq<Cmd>)
    ensures ClockOf(a + b) == if ClockOf(b).Some? then ClockOf(b) else ClockOf(a)
    decreases |b|
  {
    if b == [] {
      assert a + b == a;
    } else {
      assert (a + b)[..|a + b| - 1] == a + b[..|b| - 1];
      ClockAppend(a, b[..|b| - 1]);
    }
  }

  lemma {:induction false} LegKeepsClock(l: Leg, edge: Edge, off: nat)
    requires ValidLeg(l) && off <= l.len
    ensures ClockOf(LegCmds(l, edge, off)) == None
    decreases l.len - off
  {
    if off < l.len {
      var n := ChunkLen(l, off);
      var c := DataCmd(l, edge, Wire(l)[off..off + n]);
      LegKeepsClock(l, edge, off + n);
      OneClock(c);
      ClockAppend([c], LegCmds(l, edge, off + n));
    }
  }

  lemma OneClock(c: Cmd)
    ensures ClockOf([c]) == if c.ClkDiv? then Some(DivisorOf(c.lo, c.hi)) else None
  {
    assert [c][..0] == [];
  }

  lemma {:induction false} LegsKeepClock(legs: seq<Leg>, edge: Edge)
    requires ValidLegs(legs)
    ensures ClockOf(LegsCmds(legs, edge)) == None
    decreases |legs|
  {
    hide LegCmds;
    if legs != [] {
      LegsKeepClock(legs[..|legs| - 1], edge);
      LegKeepsClock(legs[|legs| - 1], edge, 0);
      ClockAppend(LegsCmds(legs[..|legs| - 1], edge), LegCmds(legs[|legs| - 1], edge, 0));
    }
  }

  /** A message runs at the divisor it begins with, or else at the one in force. */
  lemma EmissionClock(before: seq<Cmd>, div: Option<(byte, byte)>, idle: bool, cs: nat, edge: Edge, legs: seq<Leg>)
    requires cs <= 4 && ValidLegs(legs)
    ensures ClockOf(before + Emission(div, idle, cs, edge, legs))
         == if div.Some? then Some(DivisorOf(div.value.0, div.value.1)) else ClockOf(before)
  {
    hide LegsCmds, ClockOf, DivisorOf;
    var a, z := SetLow(Selecting(idle, cs), SPI_DIR), SetLow(IdleLevels(idle), SPI_DIR);
    OneClock(a);
    OneClock(z);
    LegsKeepClock(legs, edge);
    ClockAppend([a], LegsCmds(legs, edge));
    ClockAppend([a] + LegsCmds(legs, edge), [z]);
    ClockAppend(Divisor(div), MessageCmds(idle, cs, edge, legs));
    ClockAppend(before, Emission(div, idle, cs, edge, legs));
    if div.Some? { OneClock(ClkDiv(div.value.0, div.value.1)); } else { NoClock(); }
  }

  lemma {:induction false} BeginsClock(log: seq<Cmd>, div: Option<(byte, byte)>)
    requires Begins(log, div)
    ensures ClockOf(log) == if div.Some? && log != [] then Some(DivisorOf(div.value.0, div.value.1)) else None
    decreases |log|
  {
    hide DivisorOf;
    if |log| > 1 || (log != [] && div.None?) { BeginsClock(log[..|log| - 1], div); }
  }

  /** However much of a message the chip has run, its clock is the message's divisor as soon as it has run any of it,
      and the one before as long as it has run none. */
  lemma RanClock(before: seq<Cmd>, after: seq<Cmd>, div: Option<(byte, byte)>)
    requires Ran(before, after, div)
    ensures ClockOf(after) == if div.Some? && after != before then Some(DivisorOf(div.value.0, div.value.1)) else ClockOf(before)
  {
    hide ClockOf, Begins, DivisorOf;
    var tail := after[|before|..];
    assert after == before + tail;
    BeginsClock(tail, div);
    ClockAppend(before, tail);
    if after != before { assert tail != []; } else { assert tail == []; }
  }

  lemma NoClock()
    ensures ClockOf([]) == None
  {}
}
