/**
 ft232h_spi_msg and its helpers: every leg of a message under one chip select, cut into chunks
 that fit the command buffer, and the bytes read dealt back to the legs that asked for them.
 */
module Ft232hSpi {
  import opened Crc32
  import opened FusionMath
  import opened Mpsse
  import opened SpiBus
  import opened Ft232h

  const MAX_LEGS := 4

  // ---------- replies ----------

  /** Bytes the legs read. */
  function RxTotal(legs: seq<Leg>): nat {
    if legs == [] then 0
    else RxTotal(legs[..|legs| - 1]) + if legs[|legs| - 1].receives then legs[|legs| - 1].len else 0
  }

  lemma {:induction false} LegAnswers(line: nat -> bool, at: nat, l: Leg, edge: Edge, off: nat)
    requires ValidLeg(l) && off <= l.len
    ensures ReplyAll(line, at, LegCmds(l, edge, off)) == if l.receives then BytesAtSample(line, at, l.len - off) else []
    ensures SamplesAll(LegCmds(l, edge, off)) == if l.receives then 8 * (l.len - off) else 0
    ensures OwedAll(LegCmds(l, edge, off)) == if l.receives then l.len - off else 0
    decreases l.len - off
  {
    hide ReplyAll, SamplesAll, OwedAll, BytesAtSample, Wire, DataCmd;
    if off == l.len {
      OneAnswer(line, at, [], SendNow);
      NoBytes(line, at);
    } else {
      var n := ChunkLen(l, off);
      var data := Wire(l)[off..off + n];
      var used := if l.receives then 8 * n else 0;
      DataAnswers(line, at, l, edge, data);
      LegAnswers(line, at + used, l, edge, off + n);
      ReplyAppend(line, at, [DataCmd(l, edge, data)], LegCmds(l, edge, off + n));
      SamplesAppend([DataCmd(l, edge, data)], LegCmds(l, edge, off + n));
      BytesAtAppend(line, at, n, l.len - off - n);
      assert [] + ReplyAll(line, at, LegCmds(l, edge, off + n)) == ReplyAll(line, at, LegCmds(l, edge, off + n));
    }
  }

  lemma NoBytes(line: nat -> bool, at: nat)
    ensures BytesAtSample(line, at, 0) == []
  {}

  lemma DataAnswers(line: nat -> bool, at: nat, l: Leg, edge: Edge, data: seq<byte>)
    ensures ReplyAll(line, at, [DataCmd(l, edge, data)]) == if l.receives then BytesAtSample(line, at, |data|) else []
    ensures SamplesAll([DataCmd(l, edge, data)]) == if l.receives then 8 * |data| else 0
    ensures OwedAll([DataCmd(l, edge, data)]) == if l.receives then |data| else 0
  {
    hide ReplyAll, SamplesAll, OwedAll, BytesAtSample;
    var c := DataCmd(l, edge, data);
    OneAnswer(line, at, [], c);
    assert [] + [c] == [c];
  }

  lemma {:induction false} LegsAnswer(line: nat -> bool, at: nat, legs: seq<Leg>, edge: Edge)
    requires ValidLegs(legs)
    ensures ReplyAll(line, at, LegsCmds(legs, edge)) == BytesAtSample(line, at, RxTotal(legs))
    ensures SamplesAll(LegsCmds(legs, edge)) == 8 * RxTotal(legs)
    ensures OwedAll(LegsCmds(legs, edge)) == RxTotal(legs)
    decreases |legs|
  {
    hide ReplyAll, SamplesAll, OwedAll, ByteAtSample, LegCmds;
    if legs == [] {
      OneAnswer(line, at, [], SendNow);
    } else {
      var front, l := legs[..|legs| - 1], legs[|legs| - 1];
      LegsAnswer(line, at, front, edge);
      LegAnswers(line, at + 8 * RxTotal(front), l, edge, 0);
      ReplyAppend(line, at, LegsCmds(front, edge), LegCmds(l, edge, 0));
      SamplesAppend(LegsCmds(front, edge), LegCmds(l, edge, 0));
      BytesAtAppend(line, at, RxTotal(front), if l.receives then l.len else 0);
    }
  }

  /** The divisor, when it has to be programmed again. */
  function Divisor(div: Option<(byte, byte)>): seq<Cmd> {
    if div.Some? then [ClkDiv(div.value.0, div.value.1)] else []
  }

  /** Everything a message emits, flush opcodes aside. */
  function Emission(div: Option<(byte, byte)>, idle: bool, cs: nat, edge: Edge, legs: seq<Leg>): seq<Cmd>
    requires cs <= 4 && ValidLegs(legs)
  {
    Divisor(div) + MessageCmds(idle, cs, edge, legs)
  }

  function Before(div: Option<(byte, byte)>, idle: bool, cs: nat): seq<Cmd>
    requires cs <= 4
  {
    Divisor(div) + [SetLow(Selecting(idle, cs), SPI_DIR)]
  }

  lemma BeforeAnswersNothing(line: nat -> bool, at: nat, div: Option<(byte, byte)>, idle: bool, cs: nat)
    requires cs <= 4
    ensures ReplyAll(line, at, Before(div, idle, cs)) == []
    ensures SamplesAll(Before(div, idle, cs)) == 0 && OwedAll(Before(div, idle, cs)) == 0
  {
    hide Selecting;
    var s := SetLow(Selecting(idle, cs), SPI_DIR);
    OneAnswer(line, at, [], s);
    if div.Some? {
      var c := ClkDiv(div.value.0, div.value.1);
      OneAnswer(line, at, [], c);
      OneAnswer(line, at, [c], s);
      assert [] + [c] == [c];
    }
    assert [] + [s] == [s];
  }

  lemma EmissionIs(div: Option<(byte, byte)>, idle: bool, cs: nat, edge: Edge, legs: seq<Leg>)
    requires cs <= 4 && ValidLegs(legs)
    ensures Emission(div, idle, cs, edge, legs)
         == Before(div, idle, cs) + LegsCmds(legs, edge) + [SetLow(IdleLevels(idle), SPI_DIR)]
  {
    hide LegsCmds, Selecting, IdleLevels;
  }

  /** A message answers exactly the bytes its reading legs clock in. */
  lemma EmissionAnswers(line: nat -> bool, at: nat, div: Option<(byte, byte)>, idle: bool, cs: nat, edge: Edge, legs: seq<Leg>)
    requires cs <= 4 && ValidLegs(legs)
    ensures ReplyAll(line, at, Emission(div, idle, cs, edge, legs)) == BytesAtSample(line, at, RxTotal(legs))
    ensures OwedAll(Emission(div, idle, cs, edge, legs)) == RxTotal(legs)
  {
    hide ReplyAll, SamplesAll, OwedAll, BytesAtSample, LegsCmds, Before, Emission, IdleLevels;
    var b, ls, z := Before(div, idle, cs), LegsCmds(legs, edge), SetLow(IdleLevels(idle), SPI_DIR);
    EmissionIs(div, idle, cs, edge, legs);
    BeforeAnswersNothing(line, at, div, idle, cs);
    LegsAnswer(line, at, legs, edge);
    ReplyAppend(line, at, b, ls);
    SamplesAppend(b, ls);
    OneAnswer(line, at, b + ls, z);
  }

  // ---------- payloads ----------

  lemma WireAt(l: Leg, i: nat)
    requires ValidLeg(l) && i < l.len
    ensures Wire(l)[i] == if l.tx.None? then 0
                          else if l.bits == 16 then l.tx.value[if i % 2 == 0 then i + 1 else i - 1]
                          else l.tx.value[i]
  {
    if l.tx.Some? && l.bits == 16 { SwapAt(l.tx.value, i); }
  }

  /** spi_payload: one chunk in the byte order the wire wants. */
  method SpiPayload(dst: array<byte>, l: Leg, off: nat, len: nat)
    requires ValidLeg(l) && off + len <= l.len && len <= dst.Length
    requires l.bits == 16 ==> off % 2 == 0 && len % 2 == 0
    modifies dst
    ensures dst[..len] == Wire(l)[off..off + len]
  {
    hide Wire;
    if l.tx.None? {
      forall i | 0 <= i < len { dst[i] := 0; }
      forall i | 0 <= i < len ensures dst[i] == Wire(l)[off + i] { WireAt(l, off + i); }
    } else if l.bits == 16 {
      var i := 0;
      while i + 1 < len
        invariant 0 <= i <= len && i % 2 == 0
        invariant forall j :: 0 <= j < i ==> dst[j] == Wire(l)[off + j]
      {
        WireAt(l, off + i);
        WireAt(l, off + (i + 1));
        dst[i] := l.tx.value[off + i + 1];
        dst[i + 1] := l.tx.value[off + i];
        i := i + 2;
      }
    } else {
      forall i | 0 <= i < len { dst[i] := l.tx.value[off + i]; }
      forall i | 0 <= i < len ensures dst[i] == Wire(l)[off + i] { WireAt(l, off + i); }
    }
    assert forall i :: 0 <= i < len ==> dst[..len][i] == Wire(l)[off..off + len][i];
  }

  /** The i-th leg's share of the bytes read: its own stretch, dealt in its word order. */
  function RxFor(legs: seq<Leg>, src: seq<byte>, i: nat): Option<seq<byte>>
    requires i < |legs|
  {
    var at := RxTotal(legs[..i]);
    if legs[i].receives && at + legs[i].len <= |src| then Some(Dealt(legs[i], src[at..at + legs[i].len])) else None
  }

  /** spi_scatter. */
  method SpiScatter(legs: seq<Leg>, src: seq<byte>) returns (rx: seq<Option<seq<byte>>>)
    requires |src| == RxTotal(legs)
    ensures |rx| == |legs| && forall i :: 0 <= i < |legs| ==> rx[i] == RxFor(legs, src, i)
  {
    hide Dealt;
    rx := [];
    var at := 0;
    assert legs[..0] == [];
    for i := 0 to |legs|
      invariant at == RxTotal(legs[..i]) <= |src| && |rx| == i
      invariant forall k :: 0 <= k < i ==> rx[k] == RxFor(legs, src, k)
    {
      RxPrefix(legs, i);
      if legs[i].receives {
        rx := rx + [Some(Dealt(legs[i], src[at..at + legs[i].len]))];
        at := at + legs[i].len;
      } else {
        rx := rx + [None];
      }
    }
  }

  lemma {:induction false} RxPrefix(legs: seq<Leg>, i: nat)
    requires i < |legs|
    ensures RxTotal(legs[..i + 1]) == RxTotal(legs[..i]) + if legs[i].receives then legs[i].len else 0
    ensures RxTotal(legs[..i + 1]) <= RxTotal(legs)
    decreases |legs| - i
  {
    assert legs[..i + 1][..i] == legs[..i];
    if i + 1 < |legs| { RxPrefix(legs, i + 1); } else { assert legs[..i + 1] == legs; }
  }

  // ---------- loopback ----------

  /** The bytes clocked while a leg was reading. */
  function RxWire(legs: seq<Leg>): (b: seq<byte>)
    requires ValidLegs(legs)
    ensures |b| == RxTotal(legs)
  {
    if legs == [] then []
    else RxWire(legs[..|legs| - 1]) + if legs[|legs| - 1].receives then Wire(legs[|legs| - 1]) else []
  }

  /** The levels MOSI had at the edges the chip read MISO on. */
  function SampledLevels(ev: seq<Event>): seq<bool> {
    if ev == [] then []
    else SampledLevels(ev[..|ev| - 1]) + if ev[|ev| - 1].Bit? && ev[|ev| - 1].sampled then [ev[|ev| - 1].high] else []
  }

  lemma {:induction false} SampledAppend(a: seq<Event>, b: seq<Event>)
    ensures SampledLevels(a + b) == SampledLevels(a) + SampledLevels(b)
    decreases |b|
  {
    if b == [] {
      assert a + b == a;
    } else {
      assert (a + b)[..|a + b| - 1] == a + b[..|b| - 1];
      SampledAppend(a, b[..|b| - 1]);
    }
  }

  lemma {:induction false} SampledBits(bits: seq<bool>, sampled: bool)
    ensures SampledLevels(BitEvents(bits, sampled)) == if sampled then bits else []
    decreases |bits|
  {
    if bits != [] {
      var front := bits[..|bits| - 1];
      SampledBits(front, sampled);
      assert BitEvents(bits, sampled)[..|bits| - 1] == BitEvents(front, sampled);
      assert bits == front + [bits[|bits| - 1]];
    }
  }

  lemma {:induction false} SampledLegs(legs: seq<Leg>)
    requires ValidLegs(legs)
    ensures SampledLevels(LegsEvents(legs)) == BitsOfAll(RxWire(legs))
    decreases |legs|
  {
    hide BitsOfAll, BitEvents, SampledLevels, Wire;
    if legs == [] {
      NothingSampled();
    } else {
      var front, l := legs[..|legs| - 1], legs[|legs| - 1];
      SampledLegs(front);
      SampledAppend(LegsEvents(front), BitEvents(BitsOfAll(Wire(l)), l.receives));
      SampledBits(BitsOfAll(Wire(l)), l.receives);
      SpiBus.BitsAppend(RxWire(front), if l.receives then Wire(l) else []);
      NothingSampled();
    }
  }

  lemma NothingSampled()
    ensures SampledLevels([]) == [] && BitsOfAll([]) == []
  {}

  lemma SampledMessage(cs: nat, legs: seq<Leg>)
    requires cs <= 4 && ValidLegs(legs)
    ensures SampledLevels(MessageEvents(cs, legs)) == BitsOfAll(RxWire(legs))
  {
    hide SampledLevels, BitsOfAll, LegsEvents, RxWire, CsBit;
    var a, b, c := [Select(CS_ALL & !CsBit(cs))], LegsEvents(legs), [Select(CS_ALL)];
    SampledAppend(a + b, c);
    SampledAppend(a, b);
    SelectUnsampled(CS_ALL & !CsBit(cs));
    SelectUnsampled(CS_ALL);
    SampledLegs(legs);
  }

  lemma SelectUnsampled(cs: byte)
    ensures SampledLevels([Select(cs)]) == []
  {
    assert [Select(cs)][..0] == [];
  }

  lemma ByteOfBits(v: byte)
    ensures var b := Bits8(v); FromBits(b[0], b[1], b[2], b[3], b[4], b[5], b[6], b[7]) == v
  {}

  lemma {:induction false} BitsOfByte(data: seq<byte>, k: nat)
    requires k < |data|
    ensures |BitsOfAll(data)| == 8 * |data|
    ensures BitsOfAll(data)[8 * k..8 * k + 8] == Bits8(data[k])
    decreases |data|
  {
    hide Bits8;
    if k == 0 {
      if |data| > 1 { BitsOfByte(data[1..], 0); }
      assert BitsOfAll(data)[..8] == Bits8(data[0]);
    } else {
      BitsOfByte(data[1..], k - 1);
      assert BitsOfAll(data)[8..] == BitsOfAll(data[1..]);
      assert BitsOfAll(data)[8 * k..8 * k + 8] == BitsOfAll(data[1..])[8 * (k - 1)..8 * (k - 1) + 8];
    }
  }

  /** The wire answers each sample with the level MOSI has at it. */
  predicate LoopsBack(line: nat -> bool, at: nat, levels: seq<bool>) {
    forall k :: 0 <= k < |levels| ==> line(at + k) == levels[k]
  }

  lemma LoopbackByte(line: nat -> bool, at: nat, v: byte)
    requires forall j :: 0 <= j < 8 ==> line(at + j) == Bits8(v)[j]
    ensures ByteAtSample(line, at) == v
  {
    hide FromBits, Bits8;
    ByteOfBits(v);
    var b := Bits8(v);
    assert line(at + 0) == b[0] && line(at + 1) == b[1] && line(at + 2) == b[2] && line(at + 3) == b[3];
    assert line(at + 4) == b[4] && line(at + 5) == b[5] && line(at + 6) == b[6] && line(at + 7) == b[7];
  }

  /** Over a looped-back wire the bytes read are the bytes clocked while reading. */
  lemma LoopbackBytes(line: nat -> bool, at: nat, data: seq<byte>)
    requires LoopsBack(line, at, BitsOfAll(data))
    ensures BytesAtSample(line, at, |data|) == data
  {
    hide ByteAtSample, Bits8, BitsOfAll;
    forall k | 0 <= k < |data| ensures ByteAtSample(line, at + 8 * k) == data[k] {
      OneByteLooped(line, at, data, k);
    }
  }

  lemma OneByteLooped(line: nat -> bool, at: nat, data: seq<byte>, k: nat)
    requires LoopsBack(line, at, BitsOfAll(data)) && k < |data|
    ensures ByteAtSample(line, at + 8 * k) == data[k]
  {
    hide ByteAtSample, Bits8, BitsOfAll;
    BitsOfByte(data, k);
    var bits := BitsOfAll(data);
    forall j | 0 <= j < 8 ensures line(at + 8 * k + j) == Bits8(data[k])[j] {
      assert bits[8 * k..8 * k + 8][j] == bits[8 * k + j];
      assert line(at + (8 * k + j)) == bits[8 * k + j];
    }
    LoopbackByte(line, at + 8 * k, data[k]);
  }

  lemma {:induction false} RxWireSlice(legs: seq<Leg>, i: nat)
    requires ValidLegs(legs) && i < |legs| && legs[i].receives
    ensures RxTotal(legs[..i]) + legs[i].len <= RxTotal(legs)
    ensures RxWire(legs)[RxTotal(legs[..i])..RxTotal(legs[..i]) + legs[i].len] == Wire(legs[i])
    decreases |legs|
  {
    hide Wire;
    var front := legs[..|legs| - 1];
    if i == |legs| - 1 {
      assert legs[..i] == front;
    } else {
      RxWireSlice(front, i);
      assert front[..i] == legs[..i];
      var a, b := RxTotal(legs[..i]), RxTotal(legs[..i]) + legs[i].len;
      assert RxWire(legs)[a..b] == RxWire(front)[a..b];
    }
  }

  /** What a leg is dealt of its own bytes is what it sent. */
  lemma DealtOwn(l: Leg)
    requires ValidLeg(l) && l.tx.Some?
    ensures Dealt(l, Wire(l)) == l.tx.value
  {
    if l.bits == 16 { SwapTwice(l.tx.value); }
  }

  // ---------- ft232h_spi_msg ----------

  datatype SpiResult = Sent(rx: seq<Option<seq<byte>>>) | Invalid | SpiFailed

  function EdgeFor(idle: bool): Edge {
    if idle then Pos else Neg
  }

  /** The commands of legs wholly before leg i, and of leg i up to its byte `off`. */
  ghost predicate Reached(log: seq<Cmd>, before: seq<Cmd>, legs: seq<Leg>, edge: Edge, i: nat, off: nat)
    requires ValidLegs(legs) && i < |legs| && off <= legs[i].len
  {
    log + LegCmds(legs[i], edge, off) == before + LegsCmds(legs[..i], edge) + LegCmds(legs[i], edge, 0)
  }

  lemma ReachedStep(log: seq<Cmd>, before: seq<Cmd>, legs: seq<Leg>, edge: Edge, i: nat, off: nat)
    requires ValidLegs(legs) && i < |legs| && off < legs[i].len && Reached(log, before, legs, edge, i, off)
    ensures var n := ChunkLen(legs[i], off);
            Reached(log + [DataCmd(legs[i], edge, Wire(legs[i])[off..off + n])], before, legs, edge, i, off + n)
  {
    hide LegsCmds, Wire;
    var l, n := legs[i], ChunkLen(legs[i], off);
    var c := DataCmd(l, edge, Wire(l)[off..off + n]);
    assert LegCmds(l, edge, off) == [c] + LegCmds(l, edge, off + n);
    assert LegCmds(l, edge, 0) == LegCmds(legs[i], edge, 0);
    SeqAssoc(log, [c], LegCmds(l, edge, off + n));
  }

  lemma LegDone(log: seq<Cmd>, before: seq<Cmd>, legs: seq<Leg>, edge: Edge, i: nat)
    requires ValidLegs(legs) && i < |legs| && Reached(log, before, legs, edge, i, legs[i].len)
    ensures ValidLegs(legs[..i + 1]) && log == before + LegsCmds(legs[..i + 1], edge)
  {
    assert LegCmds(legs[i], edge, legs[i].len) == [];
    hide LegCmds;
    assert log + [] == log;
    assert legs[..i + 1][..i] == legs[..i];
    SeqAssoc(before, LegsCmds(legs[..i], edge), LegCmds(legs[i], edge, 0));
  }

  /** The divisor, when there is one, comes first, and there is no other. */
  predicate Begins(log: seq<Cmd>, div: Option<(byte, byte)>) {
    && (div.Some? && log != [] ==> log[0] == ClkDiv(div.value.0, div.value.1))
    && forall k :: (if div.Some? then 1 else 0) <= k < |log| ==> !log[k].ClkDiv?
  }

  predicate Begun(log: seq<Cmd>, div: Option<(byte, byte)>) {
    log != [] && Begins(log, div)
  }

  lemma BegunGrows(log: seq<Cmd>, c: Cmd, div: Option<(byte, byte)>)
    requires Begun(log, div) && !c.ClkDiv?
    ensures Begun(log + [c], div)
  {}

  /** So for what the chip has run of it. */
  lemma BegunPart(log: seq<Cmd>, sent: nat, div: Option<(byte, byte)>, before: seq<Cmd>, after: seq<Cmd>)
    requires Begun(log, div) && sent <= |log| && after == before + log[..sent]
    ensures Ran(before, after, div)
    ensures sent > 0 ==> after != before
  {
    assert after[|before|..] == log[..sent];
  }

  /** A message, or as much of it as the chip has been sent. */
  predicate Ran(before: seq<Cmd>, after: seq<Cmd>, div: Option<(byte, byte)>) {
    before <= after && Begins(after[|before|..], div)
  }

  /** One chunk of a leg, and room for it first; not ok when the room needed a flush that failed. */
  method SendChunk(m: Stream, l: Leg, at: nat, edge: Edge, ghost div: Option<(byte, byte)>) returns (ok: bool, chunk: nat)
    requires m.Valid() && ValidLeg(l) && at < l.len && (l.bits == 16 ==> at % 2 == 0)
    requires !m.failed ==> OwedAll(m.log) <= m.reply.Length
    requires Begun(m.log, div)
    modifies m, m.cmd, m.reply, m.usb
    ensures m.Valid() && (old(m.lost) ==> m.lost) && (old(m.failed) ==> m.failed) && Begun(m.log, div)
    ensures chunk == ChunkLen(l, at) && 0 < chunk && at + chunk <= l.len && (l.bits == 16 ==> (at + chunk) % 2 == 0)
    ensures ok && !m.failed ==> m.log == old(m.log) + [DataCmd(l, edge, Wire(l)[at..at + chunk])]
    ensures !ok ==> m.log == old(m.log)
    ensures !m.lost && !old(m.failed) && old(m.n) <= 4090 ==> ok && !m.failed && m.n <= 4090
    ensures !old(m.failed) && old(m.n) <= 100 ==>
              ok && !m.failed && m.n == old(m.n) + 3 + chunk && unchanged(m.usb) && m.dropped == old(m.dropped)
  {
    hide EncodeAll, ReplyAll, SamplesAll, OwedAll, Wire, Encode, Stream.Synced, Stream.Shape, Stream.Valid, Begun, Later, OutcomeAt;
    chunk := l.len - at;
    if chunk > CHUNK { chunk := CHUNK; }
    ok := m.Room(chunk + 8);
    if !ok { return; }
    var pay := new byte[CHUNK];
    SpiPayload(pay, l, at, chunk);
    var c := DataCmd(l, edge, pay[..chunk]);
    DataCost(l, edge, pay[..chunk]);
    BegunGrows(m.log, c, div);
    m.Emit(c);
  }

  /** One leg: chunk by chunk, the buffer flushed whenever a chunk and its framing would not fit. */
  method SendLeg(m: Stream, legs: seq<Leg>, i: nat, edge: Edge, ghost before: seq<Cmd>, ghost div: Option<(byte, byte)>)
    requires m.Valid() && ValidLegs(legs) && i < |legs| && m.reply.Length == RxTotal(legs)
    requires !m.failed ==> OwedAll(m.log) <= RxTotal(legs[..i])
    requires !m.lost ==> !m.failed && m.n <= 4090 && m.log == before + LegsCmds(legs[..i], edge)
    requires Begun(m.log, div)
    modifies m, m.cmd, m.reply, m.usb
    ensures m.Valid() && (old(m.lost) ==> m.lost) && (old(m.failed) ==> m.failed) && Begun(m.log, div)
    ensures !m.failed ==> OwedAll(m.log) <= RxTotal(legs[..i + 1])
    ensures !m.lost ==> !m.failed && m.n <= 4090 && m.log == before + LegsCmds(legs[..i + 1], edge)
    ensures !old(m.failed) && old(m.n) <= 100 && legs[i].len <= CHUNK ==>
              !m.failed && m.n == old(m.n) + 3 + legs[i].len && unchanged(m.usb) && m.dropped == old(m.dropped)
  {
    hide EncodeAll, ReplyAll, SamplesAll, OwedAll, LegCmds, LegsCmds, Wire, Reached, RxTotal, Encode, Stream.Synced, Stream.Shape,
         Stream.Valid, Begun;
    var l := legs[i];
    var at := 0;
    ReachedStart(before, legs, edge, i);
    RxPrefix(legs, i);
    assert ValidLeg(l) && l.len > 0;
    while at < l.len && !m.failed
      invariant 0 <= at <= l.len && m.Valid() && (old(m.lost) ==> m.lost) && (old(m.failed) ==> m.failed)
      invariant l.bits == 16 ==> at % 2 == 0
      invariant Begun(m.log, div)
      invariant !m.failed ==> OwedAll(m.log) <= RxTotal(legs[..i]) + if l.receives then at else 0
      invariant !m.lost ==> !m.failed && m.n <= 4090 && Reached(m.log, before, legs, edge, i, at)
      invariant !old(m.failed) && old(m.n) <= 100 && l.len <= CHUNK ==>
        !m.failed && (at == 0 || at == l.len) && unchanged(m.usb) && m.dropped == old(m.dropped)
        && m.n == (if at == 0 then old(m.n) else old(m.n) + 3 + l.len)
      decreases l.len - at
    {
      ghost var log := m.log;
      if !m.lost { ReachedStep(log, before, legs, edge, i, at); }
      var ok, chunk := SendChunk(m, l, at, edge, div);
      if !ok { break; }
      ChunkOwes(l, edge, log, at);
      at := at + chunk;
    }
    if !m.lost { LegDone(m.log, before, legs, edge, i); }
  }

  lemma ChunkOwes(l: Leg, edge: Edge, log: seq<Cmd>, at: nat)
    requires ValidLeg(l) && at < l.len
    ensures var n := ChunkLen(l, at);
            0 < n && at + n <= l.len
            && OwedAll(log + [DataCmd(l, edge, Wire(l)[at..at + n])]) == OwedAll(log) + if l.receives then n else 0
  {
    hide OwedAll, Wire;
    var n := ChunkLen(l, at);
    OwedSnoc(log, DataCmd(l, edge, Wire(l)[at..at + n]));
    DataCost(l, edge, Wire(l)[at..at + n]);
  }

  lemma DataCost(l: Leg, edge: Edge, data: seq<byte>)
    requires 1 <= |data| <= CHUNK
    ensures ValidCmd(DataCmd(l, edge, data)) && |Encode(DataCmd(l, edge, data))| == 3 + |data|
    ensures Owed(DataCmd(l, edge, data)) == if l.receives then |data| else 0
    ensures DataCmd(l, edge, data) != SendNow
  {}

  lemma ReachedStart(before: seq<Cmd>, legs: seq<Leg>, edge: Edge, i: nat)
    requires ValidLegs(legs) && i < |legs|
    ensures Reached(before + LegsCmds(legs[..i], edge), before, legs, edge, i, 0)
  {
    hide LegCmds, LegsCmds;
  }

  /** The divisor, when there is one, and the select: the first bytes in the buffer. */
  method SendSelect(m: Stream, div: Option<(byte, byte)>, idle: bool, cs: nat)
    requires m.Valid() && m.n == 0 && m.log == [] && !m.failed && cs <= 4
    modifies m`n, m`pending, m`failed, m`log, m`held, m.cmd
    ensures m.Valid() && !m.failed && 3 <= m.n <= 6 && m.lost == old(m.lost) && m.dropped == old(m.dropped)
    ensures m.log == Before(div, idle, cs) && Begun(m.log, div)
  {
    hide EncodeAll, OwedAll, Selecting, Stream.Synced, Stream.Kept, Laid;
    if div.Some? { m.Emit(ClkDiv(div.value.0, div.value.1)); }
    m.Emit(SetLow(Selecting(idle, cs), SPI_DIR));
  }

  /** Everything emitted and flushed, for legs that passed the checks. */
  method SendMessage(m: Stream, div: Option<(byte, byte)>, idle: bool, cs: nat, legs: seq<Leg>) returns (ok: bool)
    requires m.Valid() && m.n == 0 && m.log == [] && !m.failed && m.reply.Length == RxTotal(legs)
    requires cs <= 4 && ValidLegs(legs)
    modifies m, m.cmd, m.reply, m.usb
    ensures m.Valid() && Begun(m.log, div) && (ok ==> m.sent == |m.log|)
    ensures !m.lost ==> ok && m.log == Emission(div, idle, cs, EdgeFor(idle), legs) && m.Synced()
    ensures |legs| == 1 && legs[0].len <= CHUNK && OutcomeAt(old(m.usb.outcomes), 0) < 0 ==>
              !ok && Idled(m.usb, old(m.dropped), m.dropped)
  {
    hide EncodeAll, ReplyAll, SamplesAll, OwedAll, LegsCmds, Emission, Selecting, IdleLevels, RxTotal, OutcomeAt, Later,
         Begun, Before, Stream.Synced, Stream.Kept, Laid;
    var edge := EdgeFor(idle);
    ghost var before := Before(div, idle, cs);
    SendSelect(m, div, idle, cs);
    BeforeAnswersNothing(m.usb.line, 0, div, idle, cs);
    NoLegs(legs, edge, before);
    var i := 0;
    while i < |legs| && !m.failed
      invariant 0 <= i <= |legs| && m.Valid()
      invariant !m.failed ==> OwedAll(m.log) <= RxTotal(legs[..i])
      invariant !m.lost ==> !m.failed && m.n <= 4090 && m.log == before + LegsCmds(legs[..i], edge)
      invariant Begun(m.log, div)
      invariant i == 0 ==> !m.failed && m.n <= 6
      invariant i <= 1 && |legs| > 0 && legs[0].len <= CHUNK ==>
        !m.failed && 0 < m.n <= 9 + CHUNK && unchanged(m.usb) && m.dropped == old(m.dropped)
    {
      SendLeg(m, legs, i, edge, before, div);
      i := i + 1;
    }
    assert legs[..|legs|] == legs;
    OwedSnoc(m.log, SetLow(IdleLevels(idle), SPI_DIR));
    BegunGrows(m.log, SetLow(IdleLevels(idle), SPI_DIR), div);
    m.Emit(SetLow(IdleLevels(idle), SPI_DIR));
    EmissionIs(div, idle, cs, edge, legs);
    ok := false;
    if !m.failed { ok := m.Flush(); }
  }

  lemma NoLegs(legs: seq<Leg>, edge: Edge, before: seq<Cmd>)
    requires ValidLegs(legs)
    ensures ValidLegs(legs[..0]) && before + LegsCmds(legs[..0], edge) == before && RxTotal(legs[..0]) == 0
  {}

  /** The checks ft232h_spi_msg makes before it emits anything. */
  predicate Acceptable(legs: seq<Leg>) {
    1 <= |legs| <= MAX_LEGS && forall k :: 0 <= k < |legs| ==> legs[k].len > 0 && (legs[k].bits == 16 ==> legs[k].len % 2 == 0)
  }

  method CheckLegs(legs: seq<Leg>) returns (ok: bool, nrx: nat)
    ensures ok <==> Acceptable(legs)
    ensures ok ==> nrx == RxTotal(legs)
  {
    nrx := 0;
    if |legs| < 1 || |legs| > MAX_LEGS { return false, 0; }
    assert legs[..0] == [];
    for i := 0 to |legs|
      invariant nrx == RxTotal(legs[..i])
      invariant forall k :: 0 <= k < i ==> legs[k].len > 0 && (legs[k].bits == 16 ==> legs[k].len % 2 == 0)
    {
      RxPrefix(legs, i);
      if legs[i].len == 0 { return false, 0; }
      if legs[i].bits == 16 && legs[i].len % 2 == 1 { return false, 0; }
      if legs[i].receives { nrx := nrx + legs[i].len; }
    }
    assert legs[..|legs|] == legs;
    ok := true;
  }

  /** Each reading leg got its own bytes off the wire, and no other leg any. */
  predicate Scattered(line: nat -> bool, at: nat, legs: seq<Leg>, rx: seq<Option<seq<byte>>>) {
    |rx| == |legs| && forall i :: 0 <= i < |legs| ==> rx[i] == RxFor(legs, BytesAtSample(line, at, RxTotal(legs)), i)
  }

  /** ft232h_spi_msg, on a handle whose checks passed: `idle` is its mode's clock rest level, `div` the divisor
      when the last message ran at another clock.  `wires` is the bus before the chip ran anything.
      Unless a USB call fails, the chip runs the divisor and the message and nothing else, the bus carries the
      message and is quiet again, and each reading leg gets its own bytes off the wire. */
  method SpiMessage(usb: Usb, div: Option<(byte, byte)>, idle: bool, cs: nat, legs: seq<Leg>, ghost wires: Bus)
    returns (rc: SpiResult)
    requires cs <= 4 && Quiet(idle, SpiBus.Run(idle, wires, usb.ran))
    requires forall k :: 0 <= k < |legs| && legs[k].tx.Some? ==> |legs[k].tx.value| == legs[k].len
    modifies usb
    ensures rc.Invalid? <==> !Acceptable(legs)
    ensures rc.Invalid? ==> unchanged(usb)
    ensures old(usb.Healthy()) ==> Unfailed(usb) && usb.Healthy()
    ensures Ran(old(usb.ran), usb.ran, div) && (rc.Sent? ==> usb.ran != old(usb.ran))
    ensures Acceptable(legs) && |legs| == 1 && legs[0].len <= CHUNK && OutcomeAt(old(usb.outcomes), 0) < 0 ==>
      rc == SpiFailed && Idled(usb, false, false)
    ensures Unfailed(usb) && Acceptable(legs) ==>
      rc.Sent? && usb.queue == [] && usb.garbled == old(usb.garbled) && ValidLegs(legs)
    ensures Unfailed(usb) && Acceptable(legs) ==> usb.ran == old(usb.ran) + Emission(div, idle, cs, EdgeFor(idle), legs)
    ensures Unfailed(usb) && Acceptable(legs) ==>
      usb.samples == old(usb.samples) + SamplesAll(Emission(div, idle, cs, EdgeFor(idle), legs))
    ensures Unfailed(usb) && Acceptable(legs) ==> Quiet(idle, SpiBus.Run(idle, wires, usb.ran))
    ensures Unfailed(usb) && Acceptable(legs) ==>
      SpiBus.Run(idle, wires, usb.ran).events == old(SpiBus.Run(idle, wires, usb.ran)).events + MessageEvents(cs, legs)
    ensures Unfailed(usb) && Acceptable(legs) ==> Scattered(usb.line, old(usb.samples), legs, rc.rx)
  {
    hide EncodeAll, ReplyAll, SamplesAll, OwedAll, SpiBus.Run, Quiet, Emission, MessageEvents, BytesAtSample, RxTotal, Acceptable, RxFor,
         Serves, Account, Laid, Begun, Ran, Later, OutcomeAt;
    assert Ran(usb.ran, usb.ran, div) by { NothingRan(usb.ran, div); }
    var ok, nrx := CheckLegs(legs);
    if !ok { return Invalid; }
    AcceptableValid(legs);
    var reply := new byte[nrx];
    var m := new Stream(usb, reply);
    ok := SendMessage(m, div, idle, cs, legs);
    SentPart(m.held, m.cmd[..m.n], m.log, m.sent, m.ran0, usb.ran, div);
    rc := SpiFailed;
    if ok {
      var rx := SpiScatter(legs, reply[..]);
      rc := Sent(rx);
    }
    if !m.lost {
      AccountDone(usb.line, m.base, m.log, m.sent, usb.samples, reply[..m.replied]);
      LaidDone(m.held, m.cmd[..m.n], m.log, m.sent, m.ran0, usb.ran);
      EmissionAnswers(usb.line, m.base, div, idle, cs, EdgeFor(idle), legs);
      assert reply[..m.replied] == reply[..];
      BusCarries(wires, m.ran0, usb.ran, div, idle, cs, legs);
    }
  }

  lemma NothingRan(ran: seq<Cmd>, div: Option<(byte, byte)>)
    ensures Ran(ran, ran, div)
  {}

  lemma SentPart(held: seq<Cmd>, queued: seq<byte>, log: seq<Cmd>, sent: nat, before: seq<Cmd>, after: seq<Cmd>,
                 div: Option<(byte, byte)>)
    requires Laid(held, queued, log, sent, before, after) && Begun(log, div)
    ensures Ran(before, after, div) && (sent == |log| ==> after != before)
  {
    hide EncodeAll, ValidCmds, Strip;
    BegunPart(log, sent, div, before, after);
  }

  lemma AcceptableValid(legs: seq<Leg>)
    requires Acceptable(legs)
    requires forall k :: 0 <= k < |legs| && legs[k].tx.Some? ==> |legs[k].tx.value| == legs[k].len
    ensures ValidLegs(legs)
  {}

  lemma BusCarries(wires: Bus, before: seq<Cmd>, after: seq<Cmd>, div: Option<(byte, byte)>, idle: bool, cs: nat, legs: seq<Leg>)
    requires cs <= 4 && ValidLegs(legs) && Quiet(idle, SpiBus.Run(idle, wires, before))
    requires after == before + Emission(div, idle, cs, EdgeFor(idle), legs)
    ensures Quiet(idle, SpiBus.Run(idle, wires, after))
    ensures SpiBus.Run(idle, wires, after).events == SpiBus.Run(idle, wires, before).events + MessageEvents(cs, legs)
  {
    hide SpiBus.Run, Quiet, MessageCmds, MessageEvents;
    var edge := EdgeFor(idle);
    var b := SpiBus.Run(idle, wires, before);
    SpiBus.RunAppend(idle, wires, before, Divisor(div) + MessageCmds(idle, cs, edge, legs));
    SpiBus.RunAppend(idle, b, Divisor(div), MessageCmds(idle, cs, edge, legs));
    DivisorSilent(idle, b, div);
    MessageMeans(idle, b, cs, edge, legs);
  }

  /** Programming the divisor moves no pin. */
  lemma DivisorSilent(idle: bool, b: Bus, div: Option<(byte, byte)>)
    ensures SpiBus.Run(idle, b, Divisor(div)) == b
  {
    if div.Some? {
      var c := ClkDiv(div.value.0, div.value.1);
      SpiBus.RunOne(idle, b, c);
      assert b.events + [] == b.events;
    }
  }

  /** On a wire that loops MOSI back to MISO, a leg that sends and reads gets back what it sent. */
  lemma LoopbackReturns(line: nat -> bool, at: nat, cs: nat, legs: seq<Leg>, i: nat)
    requires cs <= 4 && ValidLegs(legs) && i < |legs| && legs[i].receives && legs[i].tx.Some?
    requires LoopsBack(line, at, SampledLevels(MessageEvents(cs, legs)))
    ensures RxFor(legs, BytesAtSample(line, at, RxTotal(legs)), i) == legs[i].tx
  {
    assert ValidLeg(legs[i]);
    hide *;
    SampledMessage(cs, legs);
    LoopbackBytes(line, at, RxWire(legs));
    RxWireSlice(legs, i);
    DealtOwn(legs[i]);
    RxForSlice(legs, RxWire(legs), i);
  }

  lemma RxForSlice(legs: seq<Leg>, src: seq<byte>, i: nat)
    requires i < |legs| && legs[i].receives && RxTotal(legs[..i]) + legs[i].len <= |src|
    ensures RxFor(legs, src, i) == Some(Dealt(legs[i], src[RxTotal(legs[..i])..RxTotal(legs[..i]) + legs[i].len]))
  {
    hide Dealt, RxTotal;
  }
}
