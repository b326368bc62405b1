/**
 What MPSSE commands do to the pins of an SPI bus, and what a part of mode 0 or 2 makes of
 them: chip selects changing, and one bit at each leading clock edge.  The messages
 src/bus_ft232h.c emits are proved to select one part, clock exactly the bytes asked for, and
 release it; and over a wire that loops back, to return what they send.
 */
module SpiBus {
  import opened Crc32
  import opened FusionMath
  import opened Mpsse

  const PIN_SCK: byte := 0x01
  const PIN_MOSI: byte := 0x02
  const CS_ALL: byte := 0xF8
  const SPI_DIR: byte := 0xFB

  // ---------- the pins ----------

  /** Levels on the pins; undriven ones float high. `sampled` marks an edge the chip reads MISO on. */
  datatype Level = Level(sck: bool, mosi: bool, cs: byte, sampled: bool)

  function LevelFor(value: byte, dir: byte): Level {
    var v := value | !dir;
    Level(v & PIN_SCK != 0, v & PIN_MOSI != 0, v & CS_ALL, false)
  }

  /** Data goes out on `edge`: with the clock at rest on the other side of that edge, a bit is set up before
      the pulse and steady over its leading edge; from the wrong rest level it changes on that edge. */
  function PulseOut(l: Level, edge: Edge, bit: bool, sampled: bool): seq<Level> {
    var ready := l.(mosi := bit, sampled := false);
    var lead := ready.(sck := !l.sck, sampled := sampled);
    if (edge == Neg) == !l.sck then [ready, lead, ready] else [l.(sampled := false), lead, ready]
  }

  function ShiftOut(l: Level, edge: Edge, bits: seq<bool>, sampled: bool): (seq<Level>, Level)
    decreases |bits|
  {
    if bits == [] then ([], l)
    else
      var more := ShiftOut(l.(mosi := bits[0], sampled := false), edge, bits[1..], sampled);
      (PulseOut(l, edge, bits[0], sampled) + more.0, more.1)
  }

  /** Clocks that leave MOSI alone. */
  function ShiftIn(l: Level, n: nat): (seq<Level>, Level)
    decreases n
  {
    if n == 0 then ([], l)
    else
      var rest := l.(sampled := false);
      var more := ShiftIn(rest, n - 1);
      ([rest, rest.(sck := !l.sck, sampled := true), rest] + more.0, more.1)
  }

  function Wave(l: Level, c: Cmd): (seq<Level>, Level) {
    match c
    case SetLow(v, d) => ([LevelFor(v, d)], LevelFor(v, d))
    case Out(e, data) => ShiftOut(l, e, BitsOfAll(data), false)
    case Io(e, data) => ShiftOut(l, e, BitsOfAll(data), true)
    case OutBits(v) => ShiftOut(l, Neg, [v & 0x80 != 0], false)
    case In(n) => ShiftIn(l, 8 * n)
    case InBit => ShiftIn(l, 1)
    case _ => ([], l)
  }

  // ---------- what a part hears ----------

  /** Select lines as they now stand; a bit, steady over its edge; or data moving under the edge. */
  datatype Event = Select(cs: byte) | Bit(high: bool, sampled: bool) | Unsteady

  /** `idle` is the clock's rest level, the part's mode: low for 0, high for 2. */
  function Hear(idle: bool, was: Level, now: Level): seq<Event> {
    (if was.cs != now.cs then [Select(now.cs)] else [])
    + (if was.sck == idle && now.sck != idle then
         (if was.mosi == now.mosi then [Bit(now.mosi, now.sampled)] else [Unsteady])
       else [])
  }

  function HearAll(idle: bool, was: Level, w: seq<Level>): seq<Event>
    decreases |w|
  {
    if w == [] then [] else Hear(idle, was, w[0]) + HearAll(idle, w[0], w[1..])
  }

  function LastOf(was: Level, w: seq<Level>): Level {
    if w == [] then was else w[|w| - 1]
  }

  datatype Bus = Bus(pins: Level, ear: Level, events: seq<Event>)

  function Run1(idle: bool, b: Bus, c: Cmd): Bus {
    var w := Wave(b.pins, c);
    Bus(w.1, LastOf(b.ear, w.0), b.events + HearAll(idle, b.ear, w.0))
  }

  function Run(idle: bool, b: Bus, cs: seq<Cmd>): Bus
    decreases |cs|
  {
    if cs == [] then b else Run1(idle, Run(idle, b, cs[..|cs| - 1]), cs[|cs| - 1])
  }

  lemma {:induction false} RunAppend(idle: bool, b: Bus, x: seq<Cmd>, y: seq<Cmd>)
    ensures Run(idle, b, x + y) == Run(idle, Run(idle, b, x), y)
    decreases |y|
  {
    hide Run1;
    if y == [] {
      assert x + y == x;
    } else {
      assert (x + y)[..|x + y| - 1] == x + y[..|y| - 1];
      RunAppend(idle, b, x, y[..|y| - 1]);
    }
  }

  lemma RunOne(idle: bool, b: Bus, c: Cmd)
    ensures Run(idle, b, [c]) == Run1(idle, b, c)
  {
    hide Run1;
    assert [c][..0] == [];
    assert Run(idle, b, [c][..0]) == b;
  }

  lemma {:induction false} HearAppend(idle: bool, was: Level, x: seq<Level>, y: seq<Level>)
    ensures HearAll(idle, was, x + y) == HearAll(idle, was, x) + HearAll(idle, LastOf(was, x), y)
    ensures LastOf(was, x + y) == LastOf(LastOf(was, x), y)
    decreases |x|
  {
    hide Hear;
    if x == [] {
      assert x + y == y;
      assert [] + HearAll(idle, was, y) == HearAll(idle, was, y);
    } else {
      assert (x + y)[1..] == x[1..] + y;
      HearAppend(idle, x[0], x[1..], y);
      SeqAssoc(Hear(idle, was, x[0]), HearAll(idle, x[0], x[1..]), HearAll(idle, LastOf(was, x), y));
    }
  }

  // ---------- bytes clocked ----------

  /** The part's mode and the opcode agree: data goes out on the trailing edge. */
  predicate EdgeSuits(edge: Edge, idle: bool) {
    (edge == Neg) == !idle
  }

  function BitEvents(bits: seq<bool>, sampled: bool): (ev: seq<Event>)
    ensures |ev| == |bits|
  {
    seq(|bits|, i requires 0 <= i < |bits| => Bit(bits[i], sampled))
  }

  /** Between clocks: the ear and the pins agree and the clock rests. */
  predicate Resting(idle: bool, b: Bus) {
    b.ear.sck == idle && b.pins.sck == idle && b.ear.cs == b.pins.cs
  }

  lemma HearThree(idle: bool, was: Level, x: Level, y: Level, z: Level)
    ensures HearAll(idle, was, [x, y, z]) == Hear(idle, was, x) + (Hear(idle, x, y) + Hear(idle, y, z))
    ensures LastOf(was, [x, y, z]) == z
  {
    hide Hear;
    assert [x, y, z][1..] == [y, z] && [y, z][1..] == [z] && [z][1..] == [];
    assert HearAll(idle, y, [z]) == Hear(idle, y, z) + [];
    assert HearAll(idle, x, [y, z]) == Hear(idle, x, y) + HearAll(idle, y, [z]);
  }

  lemma PulseHeard(idle: bool, was: Level, l: Level, edge: Edge, bit: bool, sampled: bool)
    requires EdgeSuits(edge, idle) && l.sck == idle && was.sck == idle && was.cs == l.cs
    ensures HearAll(idle, was, PulseOut(l, edge, bit, sampled)) == [Bit(bit, sampled)]
    ensures LastOf(was, PulseOut(l, edge, bit, sampled)) == l.(mosi := bit, sampled := false)
  {
    hide HearAll, LastOf;
    var ready := l.(mosi := bit, sampled := false);
    var lead := ready.(sck := !l.sck, sampled := sampled);
    HearThree(idle, was, ready, lead, ready);
  }

  lemma {:induction false} ShiftHeard(idle: bool, was: Level, l: Level, edge: Edge, bits: seq<bool>, sampled: bool)
    requires EdgeSuits(edge, idle) && l.sck == idle && was.sck == idle && was.cs == l.cs
    ensures HearAll(idle, was, ShiftOut(l, edge, bits, sampled).0) == BitEvents(bits, sampled)
    ensures var end := LastOf(was, ShiftOut(l, edge, bits, sampled).0); end.sck == idle && end.cs == l.cs
    ensures ShiftOut(l, edge, bits, sampled).1.sck == idle && ShiftOut(l, edge, bits, sampled).1.cs == l.cs
    decreases |bits|
  {
    hide PulseOut, Hear;
    if bits != [] {
      var next := l.(mosi := bits[0], sampled := false);
      PulseHeard(idle, was, l, edge, bits[0], sampled);
      ShiftHeard(idle, next, next, edge, bits[1..], sampled);
      hide HearAll, LastOf;
      HearAppend(idle, was, PulseOut(l, edge, bits[0], sampled), ShiftOut(next, edge, bits[1..], sampled).0);
      assert BitEvents(bits, sampled) == [Bit(bits[0], sampled)] + BitEvents(bits[1..], sampled);
    }
  }

  /** One data command clocks its bytes, most significant bit first, and touches no chip select. */
  lemma DataHeard(idle: bool, b: Bus, c: Cmd, edge: Edge, data: seq<byte>)
    requires Resting(idle, b) && EdgeSuits(edge, idle)
    requires c == Out(edge, data) || c == Io(edge, data)
    ensures var r := Run1(idle, b, c);
            Resting(idle, r) && r.pins.cs == b.pins.cs && r.events == b.events + BitEvents(BitsOfAll(data), c.Io?)
  {
    hide ShiftOut, HearAll, LastOf, BitsOfAll;
    ShiftHeard(idle, b.ear, b.pins, edge, BitsOfAll(data), c.Io?);
  }

  // ---------- legs ----------

  /** One leg: bytes to send or none, whether to read, and its word size.  A buffer holds 16-bit words as a
      little-endian host does. */
  datatype Leg = Leg(tx: Option<seq<byte>>, receives: bool, len: nat, bits: nat)

  predicate ValidLeg(l: Leg) {
    && l.len > 0
    && (l.bits == 16 ==> l.len % 2 == 0)
    && (l.tx.Some? ==> |l.tx.value| == l.len)
  }

  /** Neighbouring bytes exchanged, as a little-endian buffer of 16-bit words goes out high byte first. */
  function SwapPairs(b: seq<byte>): (s: seq<byte>)
    ensures |s| == |b|
  {
    if |b| < 2 then b else [b[1], b[0]] + SwapPairs(b[2..])
  }

  lemma {:induction false} SwapTwice(b: seq<byte>)
    ensures SwapPairs(SwapPairs(b)) == b
    decreases |b|
  {
    if |b| >= 2 {
      SwapTwice(b[2..]);
      assert SwapPairs(b)[2..] == SwapPairs(b[2..]);
    }
  }

  lemma {:induction false} SwapAt(b: seq<byte>, i: nat)
    requires |b| % 2 == 0 && i < |b|
    ensures SwapPairs(b)[i] == b[if i % 2 == 0 then i + 1 else i - 1]
    decreases |b|
  {
    if i >= 2 {
      SwapAt(b[2..], i - 2);
      assert SwapPairs(b)[i] == SwapPairs(b[2..])[i - 2];
    }
  }

  /** The bytes a leg puts on the wire: zeros when it sends nothing. */
  function Wire(l: Leg): (w: seq<byte>)
    requires ValidLeg(l)
    ensures |w| == l.len
  {
    if l.tx.None? then seq(l.len, i => 0)
    else if l.bits == 16 then SwapPairs(l.tx.value)
    else l.tx.value
  }

  /** What a leg's receive buffer holds once the bytes off the wire are dealt out to it. */
  function Dealt(l: Leg, off: seq<byte>): seq<byte> {
    if l.bits == 16 then SwapPairs(off) else off
  }

  const CHUNK := 1024

  function DataCmd(l: Leg, edge: Edge, data: seq<byte>): Cmd {
    if l.receives then Io(edge, data) else Out(edge, data)
  }

  function ChunkLen(l: Leg, off: nat): nat
    requires off <= l.len
  {
    if l.len - off > CHUNK then CHUNK else l.len - off
  }

  /** The commands for the first `off` bytes of a leg, at most CHUNK bytes in each. */
  function LegCmds(l: Leg, edge: Edge, off: nat): seq<Cmd>
    requires ValidLeg(l) && off <= l.len
    decreases l.len - off
  {
    if off == l.len then []
    else
      var n := ChunkLen(l, off);
      [DataCmd(l, edge, Wire(l)[off..off + n])] + LegCmds(l, edge, off + n)
  }

  predicate ValidLegs(legs: seq<Leg>) {
    forall k :: 0 <= k < |legs| ==> ValidLeg(legs[k])
  }

  function LegsCmds(legs: seq<Leg>, edge: Edge): seq<Cmd>
    requires ValidLegs(legs)
  {
    if legs == [] then [] else LegsCmds(legs[..|legs| - 1], edge) + LegCmds(legs[|legs| - 1], edge, 0)
  }

  /** Every leg's bits in turn. */
  function LegsEvents(legs: seq<Leg>): seq<Event>
    requires ValidLegs(legs)
  {
    if legs == [] then []
    else LegsEvents(legs[..|legs| - 1]) + BitEvents(BitsOfAll(Wire(legs[|legs| - 1])), legs[|legs| - 1].receives)
  }

  lemma {:induction false} BitsAppend(a: seq<byte>, b: seq<byte>)
    ensures BitsOfAll(a + b) == BitsOfAll(a) + BitsOfAll(b)
    decreases |a|
  {
    hide Bits8;
    if a == [] {
      assert a + b == b;
    } else {
      assert (a + b)[1..] == a[1..] + b;
      BitsAppend(a[1..], b);
      SeqAssoc(Bits8(a[0]), BitsOfAll(a[1..]), BitsOfAll(b));
    }
  }

  lemma BitEventsAppend(a: seq<bool>, b: seq<bool>, sampled: bool)
    ensures BitEvents(a + b, sampled) == BitEvents(a, sampled) + BitEvents(b, sampled)
  {}

  lemma {:induction false} LegHeard(idle: bool, b: Bus, l: Leg, edge: Edge, off: nat)
    requires ValidLeg(l) && off <= l.len && Resting(idle, b) && EdgeSuits(edge, idle)
    ensures var r := Run(idle, b, LegCmds(l, edge, off));
            Resting(idle, r) && r.pins.cs == b.pins.cs
            && r.events == b.events + BitEvents(BitsOfAll(Wire(l)[off..]), l.receives)
    decreases l.len - off
  {
    hide Run, Run1, Wire, BitsOfAll, Resting, EdgeSuits, BitEvents;
    if off == l.len {
      RunNone(idle, b);
      NoBits(l.receives);
      assert Wire(l)[off..] == [];
      assert b.events + [] == b.events;
    } else {
      var n := ChunkLen(l, off);
      var data := Wire(l)[off..off + n];
      var c := DataCmd(l, edge, data);
      var b1 := Run1(idle, b, c);
      DataHeard(idle, b, c, edge, data);
      LegHeard(idle, b1, l, edge, off + n);
      RunOne(idle, b, c);
      RunAppend(idle, b, [c], LegCmds(l, edge, off + n));
      assert Wire(l)[off..] == data + Wire(l)[off + n..];
      BitsAppend(data, Wire(l)[off + n..]);
      BitEventsAppend(BitsOfAll(data), BitsOfAll(Wire(l)[off + n..]), l.receives);
      SeqAssoc(b.events, BitEvents(BitsOfAll(data), l.receives), BitEvents(BitsOfAll(Wire(l)[off + n..]), l.receives));
    }
  }

  lemma RunNone(idle: bool, b: Bus)
    ensures Run(idle, b, []) == b
  {}

  lemma NoBits(sampled: bool)
    ensures BitEvents(BitsOfAll([]), sampled) == []
  {}

  lemma {:induction false} LegsHeard(idle: bool, b: Bus, legs: seq<Leg>, edge: Edge)
    requires ValidLegs(legs) && Resting(idle, b) && EdgeSuits(edge, idle)
    ensures var r := Run(idle, b, LegsCmds(legs, edge));
            Resting(idle, r) && r.pins.cs == b.pins.cs && r.events == b.events + LegsEvents(legs)
    decreases |legs|
  {
    hide Run, LegCmds, BitEvents, BitsOfAll, Wire, Resting, EdgeSuits;
    if legs == [] {
      RunNone(idle, b);
      assert b.events + [] == b.events;
    } else {
      var front, l := legs[..|legs| - 1], legs[|legs| - 1];
      LegsHeard(idle, b, front, edge);
      LegHeard(idle, Run(idle, b, LegsCmds(front, edge)), l, edge, 0);
      RunAppend(idle, b, LegsCmds(front, edge), LegCmds(l, edge, 0));
      assert Wire(l)[0..] == Wire(l);
      SeqAssoc(b.events, LegsEvents(front), BitEvents(BitsOfAll(Wire(l)), l.receives));
    }
  }

  // ---------- the message ----------

  function CsBit(n: nat): byte
    requires n <= 4
  {
    if n == 0 then 0x08 else if n == 1 then 0x10 else if n == 2 then 0x20 else if n == 3 then 0x40 else 0x80
  }

  /** ADBUS at rest in a mode: every select high, the clock at its rest level. */
  function IdleLevels(idle: bool): byte {
    if idle then PIN_SCK | CS_ALL else CS_ALL
  }

  function Selecting(idle: bool, cs: nat): byte
    requires cs <= 4
  {
    IdleLevels(idle) & !CsBit(cs)
  }

  /** What ft232h_spi_msg emits, its divisor and flush opcodes aside. */
  function MessageCmds(idle: bool, cs: nat, edge: Edge, legs: seq<Leg>): seq<Cmd>
    requires cs <= 4 && ValidLegs(legs)
  {
    [SetLow(Selecting(idle, cs), SPI_DIR)] + LegsCmds(legs, edge) + [SetLow(IdleLevels(idle), SPI_DIR)]
  }

  /** One select goes low, every leg's bytes are clocked under it, and it goes high again. */
  function MessageEvents(cs: nat, legs: seq<Leg>): seq<Event>
    requires cs <= 4 && ValidLegs(legs)
  {
    [Select(CS_ALL & !CsBit(cs))] + LegsEvents(legs) + [Select(CS_ALL)]
  }

  /** Nothing selected and the clock at rest. */
  predicate Quiet(idle: bool, b: Bus) {
    Resting(idle, b) && b.pins.cs == CS_ALL
  }

  lemma Levels(idle: bool, cs: nat)
    requires cs <= 4
    ensures LevelFor(Selecting(idle, cs), SPI_DIR) == Level(idle, false, CS_ALL & !CsBit(cs), false)
    ensures LevelFor(IdleLevels(idle), SPI_DIR) == Level(idle, false, CS_ALL, false)
    ensures CS_ALL & !CsBit(cs) != CS_ALL
  {}

  lemma SetHeard(idle: bool, b: Bus, value: byte, dir: byte)
    requires Resting(idle, b) && LevelFor(value, dir).sck == idle && LevelFor(value, dir).cs != b.pins.cs
    ensures var r := Run1(idle, b, SetLow(value, dir));
            Resting(idle, r) && r.pins == LevelFor(value, dir) && r.events == b.events + [Select(LevelFor(value, dir).cs)]
  {
    hide LevelFor;
    var l := LevelFor(value, dir);
    assert [l][1..] == [];
    assert HearAll(idle, b.ear, [l]) == Hear(idle, b.ear, l) + [];
  }

  /** With nothing selected, the message selects its one part, clocks its legs, and releases it. */
  lemma MessageMeans(idle: bool, b: Bus, cs: nat, edge: Edge, legs: seq<Leg>)
    requires cs <= 4 && ValidLegs(legs) && Quiet(idle, b) && EdgeSuits(edge, idle)
    ensures var r := Run(idle, b, MessageCmds(idle, cs, edge, legs));
            Quiet(idle, r) && r.events == b.events + MessageEvents(cs, legs)
  {
    hide Run, Run1, LegsCmds, LegsEvents, LevelFor, IdleLevels, Selecting, CsBit, EdgeSuits;
    var on, off := SetLow(Selecting(idle, cs), SPI_DIR), SetLow(IdleLevels(idle), SPI_DIR);
    Levels(idle, cs);
    RunAppend(idle, b, [on] + LegsCmds(legs, edge), [off]);
    RunAppend(idle, b, [on], LegsCmds(legs, edge));
    RunOne(idle, b, on);
    SetHeard(idle, b, Selecting(idle, cs), SPI_DIR);
    var b1 := Run1(idle, b, on);
    LegsHeard(idle, b1, legs, edge);
    var b2 := Run(idle, b1, LegsCmds(legs, edge));
    RunOne(idle, b2, off);
    SetHeard(idle, b2, IdleLevels(idle), SPI_DIR);
    assert b.events + [Select(CS_ALL & !CsBit(cs))] + LegsEvents(legs) + [Select(CS_ALL)]
        == b.events + ([Select(CS_ALL & !CsBit(cs))] + LegsEvents(legs) + [Select(CS_ALL)]);
  }
}
