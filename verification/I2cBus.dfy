/**
 What MPSSE commands do to an I2C bus, as levels on two open-drain wires, and how a bus
 reads those levels (sections 3.1.4 to 3.1.6 and 3.1.10 of the I2C-bus specification
 UM10204).  The transaction src/bus_ft232h.c emits is proved to mean the transaction asked for.
 */
module I2cBus {
  import opened Crc32
  import opened FusionMath
  import opened Mpsse

  const PIN_SCL: byte := 0x01
  const PIN_SDA: byte := 0x02
  const BOTH: byte := 0x03
  const DIR_DRIVE: byte := 0x03
  const DIR_LISTEN: byte := 0x01

  // ---------- the wires ----------

  /** Output latches and directions of the two pins the chip drives. */
  datatype Pins = Pins(scl: bool, sda: bool, driveScl: bool, driveSda: bool)

  /** Levels this master puts on the wires: an undriven wire is pulled up. `sampled` marks a clock the
      chip reads its input on. */
  datatype Level = Level(scl: bool, sda: bool, sampled: bool)

  function LevelOf(p: Pins): Level {
    Level(!p.driveScl || p.scl, !p.driveSda || p.sda, false)
  }

  /** Bits put out one per clock: data set up with the clock low, held over the pulse. */
  function ShiftOut(p: Pins, bits: seq<bool>): (seq<Level>, Pins)
    decreases |bits|
  {
    if bits == [] then ([], p)
    else
      var low := p.(scl := false, sda := bits[0]);
      var pulse := [LevelOf(low), LevelOf(low.(scl := true)), LevelOf(low)];
      var more := ShiftOut(low, bits[1..]);
      (pulse + more.0, more.1)
  }

  /** n clocks with the data pin left as it is, reading the wire on each. */
  function ShiftIn(p: Pins, n: nat): (seq<Level>, Pins)
    decreases n
  {
    if n == 0 then ([], p)
    else
      var low := p.(scl := false);
      var pulse := [LevelOf(low), LevelOf(low.(scl := true)).(sampled := true), LevelOf(low)];
      var more := ShiftIn(low, n - 1);
      (pulse + more.0, more.1)
  }

  /** The levels one command puts on the wires. */
  function Wave(p: Pins, c: Cmd): (seq<Level>, Pins) {
    match c
    case SetLow(v, d) =>
      var q := Pins(v & PIN_SCL != 0, v & PIN_SDA != 0, d & PIN_SCL != 0, d & PIN_SDA != 0);
      ([LevelOf(q)], q)
    case Out(_, data) => ShiftOut(p, BitsOfAll(data))
    case OutBits(v) => ShiftOut(p, [v & 0x80 != 0])
    case In(n) => ShiftIn(p, 8 * n)
    case InBit => ShiftIn(p, 1)
    case Io(_, data) => ShiftOut(p, BitsOfAll(data))
    case _ => ([], p)
  }

  // ---------- reading the wires ----------

  /** A bit carries the level the master left on SDA over the clock: true is released. */
  datatype Event = Start | Stop | Clock(high: bool, sampled: bool)

  /** The last levels seen, and the bit of the clock pulse in progress. */
  datatype Ear = Ear(scl: bool, sda: bool, pulse: Option<Event>)

  function Hear(e: Ear, l: Level): (seq<Event>, Ear) {
    if e.scl && l.scl then
      if e.sda && !l.sda then ([Start], Ear(true, false, None))
      else if !e.sda && l.sda then ([Stop], Ear(true, true, None))
      else ([], e)
    else if l.scl then ([], Ear(true, l.sda, Some(Clock(l.sda, l.sampled))))
    else if e.scl then ((if e.pulse.Some? then [e.pulse.value] else []), Ear(false, l.sda, None))
    else ([], Ear(false, l.sda, None))
  }

  function HearAll(e: Ear, w: seq<Level>): (seq<Event>, Ear)
    decreases |w|
  {
    if w == [] then ([], e)
    else
      var one := Hear(e, w[0]);
      var more := HearAll(one.1, w[1..]);
      (one.0 + more.0, more.1)
  }

  /** A bus in mid-run: where the pins stand, what has been heard, and everything heard so far. */
  datatype Bus = Bus(pins: Pins, ear: Ear, events: seq<Event>)

  function Run1(b: Bus, c: Cmd): Bus {
    var w := Wave(b.pins, c);
    var h := HearAll(b.ear, w.0);
    Bus(w.1, h.1, b.events + h.0)
  }

  function Run(b: Bus, cs: seq<Cmd>): Bus
    decreases |cs|
  {
    if cs == [] then b else Run1(Run(b, cs[..|cs| - 1]), cs[|cs| - 1])
  }

  lemma {:induction false} RunAppend(b: Bus, x: seq<Cmd>, y: seq<Cmd>)
    ensures Run(b, x + y) == Run(Run(b, x), y)
    decreases |y|
  {
    hide Run1;
    if y == [] {
      assert x + y == x;
    } else {
      assert (x + y)[..|x + y| - 1] == x + y[..|y| - 1];
      RunAppend(b, x, y[..|y| - 1]);
    }
  }

  lemma RunOne(b: Bus, c: Cmd)
    ensures Run(b, [c]) == Run1(b, c)
  {
    hide Run1;
    assert [c][..0] == [];
    assert Run(b, [c][..0]) == b;
  }

  lemma {:induction false} HearAppend(e: Ear, x: seq<Level>, y: seq<Level>)
    ensures HearAll(e, x + y) == (HearAll(e, x).0 + HearAll(HearAll(e, x).1, y).0, HearAll(HearAll(e, x).1, y).1)
    decreases |x|
  {
    hide Hear;
    if x == [] {
      assert x + y == y;
      assert [] + HearAll(e, y).0 == HearAll(e, y).0;
    } else {
      assert (x + y)[1..] == x[1..] + y;
      var one := Hear(e, x[0]);
      HearAppend(one.1, x[1..], y);
      var a, b := HearAll(one.1, x[1..]).0, HearAll(HearAll(one.1, x[1..]).1, y).0;
      assert one.0 + (a + b) == (one.0 + a) + b;
    }
  }

  // ---------- what the emitters mean ----------

  /** Both wires high and nothing driven low: the bus is free. */
  predicate Free(b: Bus) {
    b.ear.scl && b.ear.sda && b.ear.pulse.None?
  }

  /** Between bytes of a transaction: the clock is held low. */
  predicate Clocking(b: Bus) {
    !b.ear.scl && b.ear.pulse.None? && !LevelOf(b.pins).scl && b.pins.driveScl
  }

  function ClockBits(bits: seq<bool>): (ev: seq<Event>)
    ensures |ev| == |bits|
  {
    seq(|bits|, i requires 0 <= i < |bits| => Clock(bits[i], false))
  }

  function Repeat(ev: Event, n: nat): (s: seq<Event>)
    ensures |s| == n
  {
    seq(n, i => ev)
  }

  lemma HearPulse(e: Ear, s: bool, sampled: bool)
    requires !e.scl
    ensures HearAll(e, [Level(false, s, false), Level(true, s, sampled), Level(false, s, false)])
         == ([Clock(s, sampled)], Ear(false, s, None))
  {
    var a, b, c := Level(false, s, false), Level(true, s, sampled), Level(false, s, false);
    var e1, e2 := Ear(false, s, None), Ear(true, s, Some(Clock(s, sampled)));
    assert Hear(e, a) == ([], e1) && Hear(e1, b) == ([], e2) && Hear(e2, c) == ([Clock(s, sampled)], e1);
    hide Hear, HearAll;
    HearOne(e, a);
    HearOne(e1, b);
    HearOne(e2, c);
    assert [a, b, c] == [a] + ([b] + [c]);
    HearAppend(e, [a], [b] + [c]);
    HearAppend(e1, [b], [c]);
    var none: seq<Event> := [];
    assert none + (none + [Clock(s, sampled)]) == [Clock(s, sampled)];
  }

  lemma HearOne(e: Ear, l: Level)
    ensures HearAll(e, [l]) == Hear(e, l)
  {
    hide Hear;
    assert [l][1..] == [];
    var h := Hear(e, l);
    assert h.0 + [] == h.0;
  }

  /** With both pins driven, bits shifted out are heard as those bits, in order. */
  lemma {:induction false} ShiftOutHeard(p: Pins, e: Ear, bits: seq<bool>)
    requires !e.scl && e.pulse.None? && p.driveScl && p.driveSda
    ensures HearAll(e, ShiftOut(p, bits).0).0 == ClockBits(bits)
    ensures !HearAll(e, ShiftOut(p, bits).0).1.scl && HearAll(e, ShiftOut(p, bits).0).1.pulse.None?
    ensures ShiftOut(p, bits).1.driveScl && ShiftOut(p, bits).1.driveSda
    ensures bits != [] ==> !ShiftOut(p, bits).1.scl
    decreases |bits|
  {
    if bits != [] {
      var low := p.(scl := false, sda := bits[0]);
      var pulse := [LevelOf(low), LevelOf(low.(scl := true)), LevelOf(low)];
      HearPulse(e, bits[0], false);
      ShiftOutHeard(low, Ear(false, bits[0], None), bits[1..]);
      HearAppend(e, pulse, ShiftOut(low, bits[1..]).0);
      assert ClockBits(bits) == [Clock(bits[0], false)] + ClockBits(bits[1..]);
      if bits[1..] == [] { assert ShiftOut(low, bits[1..]).1 == low; }
    }
  }

  /** With SDA released, each clock in is heard as a released bit the chip samples. */
  lemma {:induction false} ShiftInHeard(p: Pins, e: Ear, n: nat)
    requires !e.scl && e.pulse.None? && p.driveScl && !p.driveSda
    ensures HearAll(e, ShiftIn(p, n).0).0 == Repeat(Clock(true, true), n)
    ensures !HearAll(e, ShiftIn(p, n).0).1.scl && HearAll(e, ShiftIn(p, n).0).1.pulse.None?
    ensures ShiftIn(p, n).1.driveScl && !ShiftIn(p, n).1.driveSda
    ensures n > 0 ==> !ShiftIn(p, n).1.scl
    decreases n
  {
    if n > 0 {
      var low := p.(scl := false);
      var pulse := [LevelOf(low), LevelOf(low.(scl := true)).(sampled := true), LevelOf(low)];
      HearPulse(e, true, true);
      ShiftInHeard(low, Ear(false, true, None), n - 1);
      HearAppend(e, pulse, ShiftIn(low, n - 1).0);
      assert Repeat(Clock(true, true), n) == [Clock(true, true)] + Repeat(Clock(true, true), n - 1);
      if n == 1 { assert ShiftIn(low, 0).1 == low; }
    }
  }

  /** hold: the same levels several times over. */
  function Hold(value: byte, dir: byte): seq<Cmd> {
    [SetLow(value, dir), SetLow(value, dir), SetLow(value, dir), SetLow(value, dir)]
  }

  function StartCmds(): seq<Cmd> {
    Hold(BOTH, DIR_DRIVE) + Hold(PIN_SCL, DIR_DRIVE) + [SetLow(0, DIR_DRIVE)]
  }

  function StopCmds(): seq<Cmd> {
    Hold(0, DIR_DRIVE) + Hold(PIN_SCL, DIR_DRIVE) + Hold(BOTH, DIR_DRIVE) + [SetLow(BOTH, 0)]
  }

  function WriteCmds(v: byte): seq<Cmd> {
    [SetLow(0, DIR_DRIVE), Out(Neg, [v]), SetLow(0, DIR_LISTEN), InBit]
  }

  function ReadCmds(nak: bool): seq<Cmd> {
    [SetLow(0, DIR_LISTEN), In(1), SetLow(0, DIR_DRIVE), OutBits(if nak then 0x80 else 0)]
  }

  function PinsFor(value: byte, dir: byte): Pins {
    Pins(value & PIN_SCL != 0, value & PIN_SDA != 0, dir & PIN_SCL != 0, dir & PIN_SDA != 0)
  }

  lemma SetHeard(b: Bus, value: byte, dir: byte)
    ensures var h := Hear(b.ear, LevelOf(PinsFor(value, dir)));
            Run1(b, SetLow(value, dir)) == Bus(PinsFor(value, dir), h.1, b.events + h.0)
  {
    hide Hear;
    var l := LevelOf(PinsFor(value, dir));
    assert [l][1..] == [];
    var h := Hear(b.ear, l);
    assert HearAll(b.ear, [l]) == (h.0 + [], h.1);
    assert h.0 + [] == h.0;
  }

  /** Held levels are heard once. */
  lemma HoldHeard(b: Bus, value: byte, dir: byte)
    ensures var h := Hear(b.ear, LevelOf(PinsFor(value, dir)));
            Run(b, Hold(value, dir)) == Bus(PinsFor(value, dir), h.1, b.events + h.0)
  {
    hide Run, Run1;
    var c := SetLow(value, dir);
    var l := LevelOf(PinsFor(value, dir));
    var b1 := Run1(b, c);
    SetHeard(b, value, dir);
    HearAgain(b.ear, l);
    SetHeard(b1, value, dir);
    assert b1.events + [] == b1.events;
    RunFour(b, c, c, c, c);
  }

  lemma HearAgain(e: Ear, l: Level)
    ensures Hear(Hear(e, l).1, l) == ([], Hear(e, l).1)
  {}

  lemma RunFour(b: Bus, c1: Cmd, c2: Cmd, c3: Cmd, c4: Cmd)
    ensures Run(b, [c1, c2, c3, c4]) == Run1(Run1(Run1(Run1(b, c1), c2), c3), c4)
  {
    hide Run, Run1;
    assert [c1, c2, c3, c4] == [c1] + ([c2] + ([c3] + [c4]));
    RunOne(b, c1);
    RunAppend(b, [c1], [c2] + ([c3] + [c4]));
    var b1 := Run1(b, c1);
    RunOne(b1, c2);
    RunAppend(b1, [c2], [c3] + [c4]);
    var b2 := Run1(b1, c2);
    RunOne(b2, c3);
    RunAppend(b2, [c3], [c4]);
    RunOne(Run1(b2, c3), c4);
  }

  lemma Constants()
    ensures PinsFor(0, DIR_DRIVE) == Pins(false, false, true, true)
    ensures PinsFor(PIN_SCL, DIR_DRIVE) == Pins(true, false, true, true)
    ensures PinsFor(BOTH, DIR_DRIVE) == Pins(true, true, true, true)
    ensures PinsFor(0, DIR_LISTEN) == Pins(false, false, true, false)
    ensures PinsFor(BOTH, 0) == Pins(true, true, false, false)
  {}

  /** A start, from a free bus or between bytes (a repeated start), is heard as a start and nothing else. */
  lemma StartHeard(b: Bus)
    requires Free(b) || Clocking(b)
    ensures var r := Run(b, StartCmds()); Clocking(r) && r.events == b.events + [Start]
  {
    hide Run, Run1, Hold, PinsFor;
    Constants();
    var x, y, z := Hold(BOTH, DIR_DRIVE), Hold(PIN_SCL, DIR_DRIVE), [SetLow(0, DIR_DRIVE)];
    RunAppend(b, x + y, z);
    RunAppend(b, x, y);
    HoldHeard(b, BOTH, DIR_DRIVE);
    var b1 := Run(b, x);
    HoldHeard(b1, PIN_SCL, DIR_DRIVE);
    var b2 := Run(b1, y);
    RunOne(b2, SetLow(0, DIR_DRIVE));
    SetHeard(b2, 0, DIR_DRIVE);
  }

  /** A stop is heard as a stop and leaves the bus free. */
  lemma StopHeard(b: Bus)
    requires Clocking(b)
    ensures var r := Run(b, StopCmds()); Free(r) && r.events == b.events + [Stop]
  {
    hide Run, Run1, Hold, PinsFor;
    Constants();
    var x, y, z, w := Hold(0, DIR_DRIVE), Hold(PIN_SCL, DIR_DRIVE), Hold(BOTH, DIR_DRIVE), [SetLow(BOTH, 0)];
    RunAppend(b, x + y + z, w);
    RunAppend(b, x + y, z);
    RunAppend(b, x, y);
    HoldHeard(b, 0, DIR_DRIVE);
    var b1 := Run(b, x);
    HoldHeard(b1, PIN_SCL, DIR_DRIVE);
    var b2 := Run(b1, y);
    HoldHeard(b2, BOTH, DIR_DRIVE);
    var b3 := Run(b2, z);
    RunOne(b3, SetLow(BOTH, 0));
    SetHeard(b3, BOTH, 0);
  }

  /** What a byte written, or a byte read, is on the bus. */
  function WriteEvents(v: byte): seq<Event> {
    ClockBits(Bits8(v)) + [Clock(true, true)]
  }

  function ReadEvents(nak: bool): seq<Event> {
    Repeat(Clock(true, true), 8) + [Clock(nak, false)]
  }

  lemma OutHeard(b: Bus, bits: seq<bool>, c: Cmd)
    requires Clocking(b) && b.pins.driveSda && bits != [] && Wave(b.pins, c) == ShiftOut(b.pins, bits)
    ensures var r := Run1(b, c); Clocking(r) && r.pins.driveSda && r.events == b.events + ClockBits(bits)
  {
    hide ShiftOut, HearAll, Wave;
    ShiftOutHeard(b.pins, b.ear, bits);
  }

  lemma InHeard(b: Bus, n: nat, c: Cmd)
    requires Clocking(b) && !b.pins.driveSda && n > 0 && Wave(b.pins, c) == ShiftIn(b.pins, n)
    ensures var r := Run1(b, c); Clocking(r) && r.events == b.events + Repeat(Clock(true, true), n)
  {
    hide ShiftIn, HearAll, Wave;
    ShiftInHeard(b.pins, b.ear, n);
  }

  lemma LowHeard(b: Bus, dir: byte)
    requires Clocking(b) && (dir == DIR_DRIVE || dir == DIR_LISTEN)
    ensures var r := Run1(b, SetLow(0, dir));
            Clocking(r) && r.pins.driveSda == (dir == DIR_DRIVE) && r.events == b.events
  {
    hide Run1, PinsFor;
    Constants();
    SetHeard(b, 0, dir);
    assert b.events + [] == b.events;
  }

  lemma WriteHeard(b: Bus, v: byte)
    requires Clocking(b)
    ensures var r := Run(b, WriteCmds(v)); Clocking(r) && r.events == b.events + WriteEvents(v)
  {
    hide Run, Run1, Clocking, Bits8, ShiftOut;
    var b1 := Run1(b, SetLow(0, DIR_DRIVE));
    LowHeard(b, DIR_DRIVE);
    BitsOfOne(v);
    OutHeard(b1, Bits8(v), Out(Neg, [v]));
    var b2 := Run1(b1, Out(Neg, [v]));
    LowHeard(b2, DIR_LISTEN);
    var b3 := Run1(b2, SetLow(0, DIR_LISTEN));
    InHeard(b3, 1, InBit);
    RunFour(b, SetLow(0, DIR_DRIVE), Out(Neg, [v]), SetLow(0, DIR_LISTEN), InBit);
    assert Repeat(Clock(true, true), 1) == [Clock(true, true)];
  }

  lemma NakBit(nak: bool)
    ensures ((if nak then 0x80 else 0) as byte & 0x80 != 0) == nak
  {}

  lemma ReadHeard(b: Bus, nak: bool)
    requires Clocking(b)
    ensures var r := Run(b, ReadCmds(nak)); Clocking(r) && r.events == b.events + ReadEvents(nak)
  {
    hide Run, Run1, Clocking, ShiftOut, ShiftIn;
    var last := OutBits(if nak then 0x80 else 0);
    var b1 := Run1(b, SetLow(0, DIR_LISTEN));
    LowHeard(b, DIR_LISTEN);
    InHeard(b1, 8, In(1));
    var b2 := Run1(b1, In(1));
    LowHeard(b2, DIR_DRIVE);
    var b3 := Run1(b2, SetLow(0, DIR_DRIVE));
    NakBit(nak);
    OutHeard(b3, [nak], last);
    RunFour(b, SetLow(0, DIR_LISTEN), In(1), SetLow(0, DIR_DRIVE), last);
    assert ClockBits([nak]) == [Clock(nak, false)];
  }

  // ---------- the transaction ----------

  function WritesCmds(tx: seq<byte>): seq<Cmd> {
    if tx == [] then [] else WritesCmds(tx[..|tx| - 1]) + WriteCmds(tx[|tx| - 1])
  }

  function WritesEvents(tx: seq<byte>): seq<Event> {
    if tx == [] then [] else WritesEvents(tx[..|tx| - 1]) + WriteEvents(tx[|tx| - 1])
  }

  /** The first k of n bytes read: all acknowledged but the n-th. */
  function ReadsCmds(k: nat, n: nat): seq<Cmd> {
    if k == 0 then [] else ReadsCmds(k - 1, n) + ReadCmds(k == n)
  }

  function ReadsEvents(k: nat, n: nat): seq<Event> {
    if k == 0 then [] else ReadsEvents(k - 1, n) + ReadEvents(k == n)
  }

  /** What ft232h_i2c_xfer emits, flush opcodes aside. */
  function TransactionCmds(addrW: byte, addrR: byte, tx: seq<byte>, rxlen: nat): seq<Cmd> {
    StartCmds() + WriteCmds(addrW) + WritesCmds(tx)
    + (if rxlen > 0 then StartCmds() + WriteCmds(addrR) + ReadsCmds(rxlen, rxlen) else [])
    + StopCmds()
  }

  /** The transaction asked for: start, address and write bit, the bytes; a repeated start, address and read
      bit, the bytes read, all acknowledged but the last; stop. */
  function TransactionEvents(addrW: byte, addrR: byte, tx: seq<byte>, rxlen: nat): seq<Event> {
    [Start] + WriteEvents(addrW) + WritesEvents(tx)
    + (if rxlen > 0 then [Start] + WriteEvents(addrR) + ReadsEvents(rxlen, rxlen) else [])
    + [Stop]
  }

  lemma {:induction false} WritesHeard(b: Bus, tx: seq<byte>)
    requires Clocking(b)
    ensures var r := Run(b, WritesCmds(tx)); Clocking(r) && r.events == b.events + WritesEvents(tx)
    decreases |tx|
  {
    hide Run, WriteCmds, WriteEvents, Clocking, WritesCmds, WritesEvents;
    if tx == [] {
      WritesNone();
      RunNone(b);
      assert b.events + [] == b.events;
    } else {
      var front := tx[..|tx| - 1];
      WritesHeard(b, front);
      WriteHeard(Run(b, WritesCmds(front)), tx[|tx| - 1]);
      RunAppend(b, WritesCmds(front), WriteCmds(tx[|tx| - 1]));
      WritesLast(tx);
      SeqAssoc(b.events, WritesEvents(front), WriteEvents(tx[|tx| - 1]));
    }
  }

  lemma WritesNone()
    ensures WritesCmds([]) == [] && WritesEvents([]) == []
  {}

  lemma WritesLast(tx: seq<byte>)
    requires tx != []
    ensures WritesCmds(tx) == WritesCmds(tx[..|tx| - 1]) + WriteCmds(tx[|tx| - 1])
    ensures WritesEvents(tx) == WritesEvents(tx[..|tx| - 1]) + WriteEvents(tx[|tx| - 1])
  {
    hide WriteCmds, WriteEvents;
  }

  lemma RunNone(b: Bus)
    ensures Run(b, []) == b
  {}

  lemma {:induction false} ReadsHeard(b: Bus, k: nat, n: nat)
    requires Clocking(b)
    ensures var r := Run(b, ReadsCmds(k, n)); Clocking(r) && r.events == b.events + ReadsEvents(k, n)
  {
    hide Run, ReadCmds, ReadEvents, Clocking;
    if k == 0 {
      RunNone(b);
      assert b.events + [] == b.events;
    } else {
      ReadsHeard(b, k - 1, n);
      ReadHeard(Run(b, ReadsCmds(k - 1, n)), k == n);
      RunAppend(b, ReadsCmds(k - 1, n), ReadCmds(k == n));
    }
  }

  lemma WritePartHeard(b: Bus, addr: byte, tx: seq<byte>)
    requires Free(b) || Clocking(b)
    ensures var r := Run(b, StartCmds() + WriteCmds(addr) + WritesCmds(tx));
            Clocking(r) && r.events == b.events + ([Start] + WriteEvents(addr) + WritesEvents(tx))
  {
    hide Run, StartCmds, WriteCmds, WritesCmds, WriteEvents, WritesEvents, Clocking, Free;
    RunAppend(b, StartCmds() + WriteCmds(addr), WritesCmds(tx));
    RunAppend(b, StartCmds(), WriteCmds(addr));
    StartHeard(b);
    var b1 := Run(b, StartCmds());
    WriteHeard(b1, addr);
    WritesHeard(Run(b1, WriteCmds(addr)), tx);
  }

  lemma ReadPartHeard(b: Bus, addr: byte, n: nat)
    requires Clocking(b)
    ensures var r := Run(b, StartCmds() + WriteCmds(addr) + ReadsCmds(n, n));
            Clocking(r) && r.events == b.events + ([Start] + WriteEvents(addr) + ReadsEvents(n, n))
  {
    hide Run, StartCmds, WriteCmds, ReadsCmds, WriteEvents, ReadsEvents, Clocking;
    RunAppend(b, StartCmds() + WriteCmds(addr), ReadsCmds(n, n));
    RunAppend(b, StartCmds(), WriteCmds(addr));
    StartHeard(b);
    var b1 := Run(b, StartCmds());
    WriteHeard(b1, addr);
    ReadsHeard(Run(b1, WriteCmds(addr)), n, n);
  }

  /** On a free bus the commands mean the transaction, and leave the bus free. */
  lemma TransactionMeans(b: Bus, addrW: byte, addrR: byte, tx: seq<byte>, rxlen: nat)
    requires Free(b)
    ensures var r := Run(b, TransactionCmds(addrW, addrR, tx, rxlen));
            Free(r) && r.events == b.events + TransactionEvents(addrW, addrR, tx, rxlen)
  {
    hide Run, StartCmds, StopCmds, WriteCmds, WritesCmds, ReadsCmds, WriteEvents, WritesEvents, ReadsEvents, Clocking, Free;
    var x := StartCmds() + WriteCmds(addrW) + WritesCmds(tx);
    var y := if rxlen > 0 then StartCmds() + WriteCmds(addrR) + ReadsCmds(rxlen, rxlen) else [];
    var ex := [Start] + WriteEvents(addrW) + WritesEvents(tx);
    var ey := if rxlen > 0 then [Start] + WriteEvents(addrR) + ReadsEvents(rxlen, rxlen) else [];
    RunAppend(b, x + y, StopCmds());
    RunAppend(b, x, y);
    WritePartHeard(b, addrW, tx);
    var b1 := Run(b, x);
    if rxlen > 0 {
      ReadPartHeard(b1, addrR, rxlen);
    } else {
      RunNone(b1);
      assert b1.events + [] == b1.events;
    }
    StopHeard(Run(b1, y));
    assert b.events + ex + ey + [Stop] == b.events + (ex + ey + [Stop]);
  }
}
