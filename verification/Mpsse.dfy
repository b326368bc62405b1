/**
 The MPSSE command stream of an FT232H, as section 3.3 and 3.6 of FTDI AN_108 define the
 commands src/bus_ft232h.c emits: their bytes, a parser for those bytes, and the replies
 the chip owes for them.
 */
module Mpsse {
  import opened Bytes
  import opened Crc32
  import opened FusionMath

  const MC_OUT_POS: byte := 0x10
  const MC_OUT_NEG: byte := 0x11
  const MC_OUT_BITS: byte := 0x13
  const MC_IN_BYTES: byte := 0x20
  const MC_IN_BITS: byte := 0x22
  const MC_IO_OUT_NEG: byte := 0x31
  const MC_IO_OUT_POS: byte := 0x34
  const MC_SETB_LOW: byte := 0x80
  const MC_CLK_DIV: byte := 0x86
  const MC_FLUSH: byte := 0x87
  const MC_CLK_DIV5_OFF: byte := 0x8A
  const MC_3PHASE_ON: byte := 0x8C
  const MC_3PHASE_OFF: byte := 0x8D
  const MC_ADAPTIVE_OFF: byte := 0x97
  const MC_DRIVE_ZERO: byte := 0x9E
  const MC_BOGUS: byte := 0xAB

  /** Which edge of the clock data is put out on. */
  datatype Edge = Neg | Pos

  datatype Cmd =
    | SetLow(value: byte, dir: byte)
    | ClkDiv(lo: byte, hi: byte)
    | SendNow
    | Div5Off
    | ThreePhaseOn
    | ThreePhaseOff
    | AdaptiveOff
    | DriveZero(low: byte, high: byte)
    | Bogus
    | Out(edge: Edge, data: seq<byte>)
    | Io(edge: Edge, data: seq<byte>)
    | OutBits(v: byte)
    | In(count: nat)
    | InBit

  /** The commands this driver forms: byte counts fit the 16-bit length field, which holds one less. */
  predicate ValidCmd(c: Cmd) {
    && ((c.Out? || c.Io?) ==> 1 <= |c.data| <= 65536)
    && (c.In? ==> 1 <= c.count <= 65536)
  }

  // ---------- the length field ----------

  function LenLow(n: nat): byte
    requires 1 <= n <= 65536
  {
    ByteOf((n - 1) % 256)
  }

  function LenHigh(n: nat): byte
    requires 1 <= n <= 65536
  {
    ByteOf((n - 1) / 256)
  }

  function LenFrom(lo: byte, hi: byte): (n: nat)
    ensures n >= 1
  {
    lo as nat + 256 * (hi as nat) + 1
  }

  lemma LenRoundTrip(n: nat)
    requires 1 <= n <= 65536
    ensures LenFrom(LenLow(n), LenHigh(n)) == n
  {
    hide ByteOf;
    ByteValue((n - 1) % 256);
    ByteValue((n - 1) / 256);
  }

  // ---------- bytes ----------

  function Encode(c: Cmd): (b: seq<byte>)
    requires ValidCmd(c)
    ensures |b| >= 1
  {
    match c
    case SetLow(v, d) => [MC_SETB_LOW, v, d]
    case ClkDiv(lo, hi) => [MC_CLK_DIV, lo, hi]
    case SendNow => [MC_FLUSH]
    case Div5Off => [MC_CLK_DIV5_OFF]
    case ThreePhaseOn => [MC_3PHASE_ON]
    case ThreePhaseOff => [MC_3PHASE_OFF]
    case AdaptiveOff => [MC_ADAPTIVE_OFF]
    case DriveZero(lo, hi) => [MC_DRIVE_ZERO, lo, hi]
    case Bogus => [MC_BOGUS]
    case Out(e, data) => [if e == Neg then MC_OUT_NEG else MC_OUT_POS, LenLow(|data|), LenHigh(|data|)] + data
    case Io(e, data) => [if e == Neg then MC_IO_OUT_NEG else MC_IO_OUT_POS, LenLow(|data|), LenHigh(|data|)] + data
    case OutBits(v) => [MC_OUT_BITS, 0, v]
    case In(n) => [MC_IN_BYTES, LenLow(n), LenHigh(n)]
    case InBit => [MC_IN_BITS, 0]
  }

  predicate ValidCmds(cs: seq<Cmd>) {
    forall k :: 0 <= k < |cs| ==> ValidCmd(cs[k])
  }

  function EncodeAll(cs: seq<Cmd>): seq<byte>
    requires ValidCmds(cs)
  {
    if cs == [] then [] else EncodeAll(cs[..|cs| - 1]) + Encode(cs[|cs| - 1])
  }

  /** One command off the front of a byte stream; None when it is not one of these, or not all there. */
  function ParseOne(b: seq<byte>): Option<(Cmd, nat)> {
    if |b| == 0 then None
    else if b[0] == MC_FLUSH then Some((SendNow, 1))
    else if b[0] == MC_CLK_DIV5_OFF then Some((Div5Off, 1))
    else if b[0] == MC_3PHASE_ON then Some((ThreePhaseOn, 1))
    else if b[0] == MC_3PHASE_OFF then Some((ThreePhaseOff, 1))
    else if b[0] == MC_ADAPTIVE_OFF then Some((AdaptiveOff, 1))
    else if b[0] == MC_BOGUS then Some((Bogus, 1))
    else if b[0] == MC_IN_BITS then (if |b| >= 2 && b[1] == 0 then Some((InBit, 2)) else None)
    else if |b| < 3 then None
    else if b[0] == MC_SETB_LOW then Some((SetLow(b[1], b[2]), 3))
    else if b[0] == MC_CLK_DIV then Some((ClkDiv(b[1], b[2]), 3))
    else if b[0] == MC_DRIVE_ZERO then Some((DriveZero(b[1], b[2]), 3))
    else if b[0] == MC_OUT_BITS then (if b[1] == 0 then Some((OutBits(b[2]), 3)) else None)
    else
      var n := LenFrom(b[1], b[2]);
      if b[0] == MC_IN_BYTES then Some((In(n), 3))
      else if |b| < 3 + n then None
      else if b[0] == MC_OUT_NEG then Some((Out(Neg, b[3..3 + n]), 3 + n))
      else if b[0] == MC_OUT_POS then Some((Out(Pos, b[3..3 + n]), 3 + n))
      else if b[0] == MC_IO_OUT_NEG then Some((Io(Neg, b[3..3 + n]), 3 + n))
      else if b[0] == MC_IO_OUT_POS then Some((Io(Pos, b[3..3 + n]), 3 + n))
      else None
  }

  lemma ParseOneBounds(b: seq<byte>)
    ensures ParseOne(b).Some? ==> 0 < ParseOne(b).value.1 <= |b|
  {}

  /** A whole stream as commands. */
  function Parse(b: seq<byte>): Option<seq<Cmd>> {
    if b == [] then Some([])
    else
      ParseOneBounds(b);
      match ParseOne(b)
      case None => None
      case Some((c, n)) =>
        match Parse(b[n..])
        case None => None
        case Some(rest) => Some([c] + rest)
  }

  /** A command's bytes, whatever follows them, parse back to it. */
  lemma ParseEncoded(c: Cmd, more: seq<byte>)
    requires ValidCmd(c)
    ensures ParseOne(Encode(c) + more) == Some((c, |Encode(c)|))
  {
    hide LenLow, LenHigh, LenFrom;
    match c
    case Out(e, data) =>
      LenRoundTrip(|data|);
      assert (Encode(c) + more)[3..3 + |data|] == data;
    case Io(e, data) =>
      LenRoundTrip(|data|);
      assert (Encode(c) + more)[3..3 + |data|] == data;
    case In(n) => LenRoundTrip(n);
    case _ =>
  }

  lemma {:induction false} ParseAfter(cs: seq<Cmd>, more: seq<byte>)
    requires ValidCmds(cs)
    ensures Parse(EncodeAll(cs) + more)
         == if Parse(more).None? then None else Some(cs + Parse(more).value)
    decreases |cs|
  {
    hide Encode, ParseOne, ValidCmd;
    if cs == [] {
      assert EncodeAll(cs) + more == more;
      if Parse(more).Some? { assert cs + Parse(more).value == Parse(more).value; }
    } else {
      var front, last := cs[..|cs| - 1], cs[|cs| - 1];
      var tail := Encode(last) + more;
      assert EncodeAll(cs) + more == EncodeAll(front) + tail;
      ParseEncoded(last, more);
      assert tail[|Encode(last)|..] == more;
      ParseAfter(front, tail);
      if Parse(more).Some? {
        assert cs + Parse(more).value == front + ([last] + Parse(more).value);
      }
    }
  }

  /** Parsing undoes encoding. */
  lemma ParseAll(cs: seq<Cmd>)
    requires ValidCmds(cs)
    ensures Parse(EncodeAll(cs)) == Some(cs)
  {
    ParseAfter(cs, []);
    assert EncodeAll(cs) + [] == EncodeAll(cs) && cs + [] == cs;
  }

  lemma EncodeSnoc(cs: seq<Cmd>, c: Cmd)
    requires ValidCmds(cs) && ValidCmd(c)
    ensures ValidCmds(cs + [c]) && EncodeAll(cs + [c]) == EncodeAll(cs) + Encode(c)
  {
    hide Encode;
    assert (cs + [c])[..|cs|] == cs;
  }

  // ---------- bits ----------

  /** The bits of a byte in the order the engine shifts them: most significant first. */
  function Bits8(v: byte): (b: seq<bool>)
    ensures |b| == 8
  {
    [v & 0x80 != 0, v & 0x40 != 0, v & 0x20 != 0, v & 0x10 != 0,
     v & 0x08 != 0, v & 0x04 != 0, v & 0x02 != 0, v & 0x01 != 0]
  }

  function BitsOfAll(data: seq<byte>): seq<bool> {
    if data == [] then [] else Bits8(data[0]) + BitsOfAll(data[1..])
  }

  lemma BitsOfOne(v: byte)
    ensures BitsOfAll([v]) == Bits8(v)
  {
    assert [v][1..] == [];
    assert Bits8(v) + [] == Bits8(v);
  }

  // ---------- replies ----------

  /** Bits the chip samples while running a command. */
  function Samples(c: Cmd): nat {
    match c
    case InBit => 1
    case In(n) => 8 * n
    case Io(_, data) => 8 * |data|
    case _ => 0
  }

  function SamplesAll(cs: seq<Cmd>): nat {
    if cs == [] then 0 else SamplesAll(cs[..|cs| - 1]) + Samples(cs[|cs| - 1])
  }

  /** Eight sampled bits as a byte, first bit most significant. */
  function ByteAtSample(line: nat -> bool, at: nat): byte {
    FromBits(line(at), line(at + 1), line(at + 2), line(at + 3),
             line(at + 4), line(at + 5), line(at + 6), line(at + 7))
  }

  function FromBits(b7: bool, b6: bool, b5: bool, b4: bool, b3: bool, b2: bool, b1: bool, b0: bool): byte {
    (if b7 then 0x80 else 0) | (if b6 then 0x40 else 0) | (if b5 then 0x20 else 0) | (if b4 then 0x10 else 0)
    | (if b3 then 0x08 else 0) | (if b2 then 0x04 else 0) | (if b1 then 0x02 else 0) | (if b0 then 0x01 else 0)
  }

  function BytesAtSample(line: nat -> bool, at: nat, n: nat): (b: seq<byte>)
    ensures |b| == n
  {
    seq(n, k requires 0 <= k < n => ByteAtSample(line, at + 8 * k))
  }

  /** What the chip answers to one command, the bits it samples being line(at), line(at + 1), … */
  function Reply(line: nat -> bool, at: nat, c: Cmd): seq<byte> {
    match c
    case InBit => [if line(at) then 1 else 0]
    case In(n) => BytesAtSample(line, at, n)
    case Io(_, data) => BytesAtSample(line, at, |data|)
    case Bogus => [0xFA, MC_BOGUS]
    case _ => []
  }

  function ReplyAll(line: nat -> bool, at: nat, cs: seq<Cmd>): seq<byte> {
    if cs == [] then []
    else ReplyAll(line, at, cs[..|cs| - 1]) + Reply(line, at + SamplesAll(cs[..|cs| - 1]), cs[|cs| - 1])
  }

  /** Reply bytes a command owes. */
  function Owed(c: Cmd): nat {
    match c
    case InBit => 1
    case In(n) => n
    case Io(_, data) => |data|
    case Bogus => 2
    case _ => 0
  }

  function OwedAll(cs: seq<Cmd>): nat {
    if cs == [] then 0 else OwedAll(cs[..|cs| - 1]) + Owed(cs[|cs| - 1])
  }

  lemma {:induction false} ReplyLength(line: nat -> bool, at: nat, cs: seq<Cmd>)
    ensures |ReplyAll(line, at, cs)| == OwedAll(cs)
    decreases |cs|
  {
    if cs != [] { ReplyLength(line, at, cs[..|cs| - 1]); }
  }

  lemma {:induction false} SamplesAppend(a: seq<Cmd>, b: seq<Cmd>)
    ensures SamplesAll(a + b) == SamplesAll(a) + SamplesAll(b)
    ensures OwedAll(a + b) == OwedAll(a) + OwedAll(b)
    decreases |b|
  {
    hide Samples, Owed;
    if b == [] {
      assert a + b == a;
    } else {
      assert (a + b)[..|a + b| - 1] == a + b[..|b| - 1];
      SamplesAppend(a, b[..|b| - 1]);
    }
  }

  lemma {:induction false} ReplyAppend(line: nat -> bool, at: nat, a: seq<Cmd>, b: seq<Cmd>)
    ensures ReplyAll(line, at, a + b) == ReplyAll(line, at, a) + ReplyAll(line, at + SamplesAll(a), b)
    decreases |b|
  {
    hide Reply;
    if b == [] {
      assert a + b == a;
    } else {
      var front := b[..|b| - 1];
      assert (a + b)[..|a + b| - 1] == a + front;
      ReplyAppend(line, at, a, front);
      SamplesAppend(a, front);
    }
  }
}
