/**
 The .imucap format of src/capture.c and include/capture.h: headers, frames and records as
 bytes, and what a reader makes of any string of bytes.  32-bit floats are carried as their
 bit patterns.
 */
module CaptureFormat {
  import opened Bytes
  import opened Crc32
  import opened Wire

  const HEADER_SIZE := 104
  const FRAME_SIZE := 12
  const REC_IMU: byte := 1
  const REC_MAG: byte := 2
  const REC_MARK: byte := 3
  const MAGF_VALID: byte := 0x01
  const F_CRC32: byte := 0x80
  const HF_CRC32: bv16 := 1

  // ---------- frames ----------

  datatype Frame = Frame(kind: byte, flags: byte, len: bv16, monoNs: bv64)

  function FrameEncode(f: Frame): (b: seq<byte>)
    ensures |b| == FRAME_SIZE
  {
    [f.kind, f.flags] + Put16(f.len) + Put64(f.monoNs)
  }

  function FrameDecode(b: seq<byte>): Frame
    requires |b| >= FRAME_SIZE
  {
    Frame(b[0], b[1], Get16(b[2..]), Get64(b[4..]))
  }

  lemma FrameRoundTrip(f: Frame, more: seq<byte>)
    ensures FrameDecode(FrameEncode(f) + more) == f
  {
    hide Put16, Put64, Get16, Get64;
    var b := FrameEncode(f) + more;
    assert b[2..] == Put16(f.len) + (Put64(f.monoNs) + more);
    assert b[4..] == Put64(f.monoNs) + more;
    Get16Prefix(Put16(f.len), Put64(f.monoNs) + more);
    Get64Prefix(Put64(f.monoNs), more);
    RoundTrip16(f.len);
    RoundTrip64(f.monoNs);
  }

  lemma Get16Prefix(a: seq<byte>, b: seq<byte>)
    requires |a| >= 2
    ensures Get16(a + b) == Get16(a)
  {}

  lemma Get64Prefix(a: seq<byte>, b: seq<byte>)
    requires |a| >= 8
    ensures Get64(a + b) == Get64(a)
  {
    hide Get32, Join64;
    Get32Prefix(a, b);
    assert (a + b)[4..] == a[4..] + b;
    Get32Prefix(a[4..], b);
  }

  /** A length as the frame's 16-bit field holds it; a sealed payload is never shorter than its CRC. */
  function LenField(n: nat): bv16
    requires 4 <= n <= 65535
  {
    Pair(ByteOf(n % 256), ByteOf(n / 256))
  }

  /** The number a 16-bit length field holds. */
  function LenOf(f: Frame): nat {
    Low8(f.len) as nat + 256 * (High8(f.len) as nat)
  }

  lemma LenFieldLaw(f: Frame, n: nat)
    requires 4 <= n <= 65535 && f.len == LenField(n)
    ensures LenOf(f) == n
  {
    hide Pair, Low8, High8, ByteOf;
    BytesOfPair(ByteOf(n % 256), ByteOf(n / 256));
    ByteValue(n % 256);
    ByteValue(n / 256);
  }

  predicate Sealed(f: Frame) {
    f.flags & F_CRC32 != 0
  }

  // ---------- records ----------

  datatype Record =
    | Imu(monoNs: bv64, accel: (bv32, bv32, bv32), gyro: (bv32, bv32, bv32), tempC: bv32, chipTs: bv32, seqNo: bv32)
    | Mag(monoNs: bv64, field: (bv32, bv32, bv32), wallNs: bv64, valid: bool)
    | Mark(monoNs: bv64, code: bv32)

  function Put3(v: (bv32, bv32, bv32)): (b: seq<byte>)
    ensures |b| == 12
  {
    Put32(v.0) + Put32(v.1) + Put32(v.2)
  }

  function Get3(b: seq<byte>): (bv32, bv32, bv32)
    requires |b| >= 12
  {
    (Get32(b), Get32(b[4..]), Get32(b[8..]))
  }

  lemma RoundTrip3(v: (bv32, bv32, bv32), more: seq<byte>)
    ensures Get3(Put3(v) + more) == v
  {
    hide Put32, Get32;
    var b := Put3(v) + more;
    assert b == Put32(v.0) + (Put32(v.1) + Put32(v.2) + more);
    assert b[4..] == Put32(v.1) + (Put32(v.2) + more);
    assert b[8..] == Put32(v.2) + more;
    Get32Prefix(Put32(v.0), Put32(v.1) + Put32(v.2) + more);
    Get32Prefix(Put32(v.1), Put32(v.2) + more);
    Get32Prefix(Put32(v.2), more);
    RoundTrip32(v.0);
    RoundTrip32(v.1);
    RoundTrip32(v.2);
  }

  /** Payload bytes this reader knows for a record type; none for a type it does not know. */
  function KnownSize(kind: byte): nat {
    if kind == REC_IMU then 36 else if kind == REC_MAG then 20 else if kind == REC_MARK then 4 else 0
  }

  predicate Known(kind: byte) {
    kind == REC_IMU || kind == REC_MAG || kind == REC_MARK
  }

  function KindOf(r: Record): byte {
    match r case Imu(_, _, _, _, _, _) => REC_IMU case Mag(_, _, _, _) => REC_MAG case Mark(_, _) => REC_MARK
  }

  function FlagsOf(r: Record): byte {
    if r.Mag? && r.valid then MAGF_VALID else 0
  }

  function Payload(r: Record): (b: seq<byte>)
    ensures |b| == KnownSize(KindOf(r))
  {
    match r
    case Imu(_, a, g, t, c, s) => Put3(a) + Put3(g) + Put32(t) + Put32(c) + Put32(s)
    case Mag(_, f, w, _) => Put3(f) + Put64(w)
    case Mark(_, c) => Put32(c)
  }

  predicate ValidBit(flags: byte) {
    flags & MAGF_VALID != 0
  }

  /** The record a frame and the known part of its payload make. */
  function Parse(f: Frame, b: seq<byte>): Record
    requires Known(f.kind) && |b| >= KnownSize(f.kind)
  {
    if f.kind == REC_IMU then
      Imu(f.monoNs, Get3(b), Get3(b[12..]), Get32(b[24..]), Get32(b[28..]), Get32(b[32..]))
    else if f.kind == REC_MAG then
      Mag(f.monoNs, Get3(b), Get64(b[12..]), ValidBit(f.flags))
    else
      Mark(f.monoNs, Get32(b))
  }

  lemma ParseImu(r: Record, f: Frame, more: seq<byte>)
    requires r.Imu? && f.kind == REC_IMU && f.monoNs == r.monoNs
    ensures Parse(f, Payload(r) + more) == r
  {
    hide Put32, Get32, Put3, Get3;
    ParseImuFields(r, more);
  }

  lemma ParseImuFields(r: Record, more: seq<byte>)
    requires r.Imu?
    ensures var b := Payload(r) + more;
            && |b| >= 36 && Get3(b) == r.accel && Get3(b[12..]) == r.gyro && Get32(b[24..]) == r.tempC
            && Get32(b[28..]) == r.chipTs && Get32(b[32..]) == r.seqNo
  {
    hide Put32, Get32, Put3, Get3;
    hide Payload;
    var b := Payload(r) + more;
    var tail := Put32(r.tempC) + (Put32(r.chipTs) + (Put32(r.seqNo) + more));
    assert Payload(r) == Put3(r.accel) + Put3(r.gyro) + Put32(r.tempC) + Put32(r.chipTs) + Put32(r.seqNo) by { ImuPayload(r); }
    Fields(Put3(r.accel), Put3(r.gyro), Put32(r.tempC), Put32(r.chipTs), Put32(r.seqNo), more);
    RoundTrip3(r.accel, Put3(r.gyro) + tail);
    RoundTrip3(r.gyro, tail);
    LoadStored(r.tempC, Put32(r.chipTs) + (Put32(r.seqNo) + more));
    LoadStored(r.chipTs, Put32(r.seqNo) + more);
    LoadStored(r.seqNo, more);
  }

  lemma ImuPayload(r: Record)
    requires r.Imu?
    ensures Payload(r) == Put3(r.accel) + Put3(r.gyro) + Put32(r.tempC) + Put32(r.chipTs) + Put32(r.seqNo)
  {}

  /** Where the fields of a fixed layout start. */
  lemma Fields(a: seq<byte>, g: seq<byte>, t: seq<byte>, c: seq<byte>, s: seq<byte>, more: seq<byte>)
    requires |a| == 12 && |g| == 12 && |t| == 4 && |c| == 4 && |s| == 4
    ensures var b := a + g + t + c + s + more;
            && b == a + (g + (t + (c + (s + more))))
            && b[12..] == g + (t + (c + (s + more)))
            && b[24..] == t + (c + (s + more))
            && b[28..] == c + (s + more)
            && b[32..] == s + more
  {
    var s4 := s + more;
    var s3 := c + s4;
    var s2 := t + s3;
    SeqAssoc(a + g + t + c, s, more);
    SeqAssoc(a + g + t, c, s4);
    SeqAssoc(a + g, t, s3);
    SeqAssoc(a, g, s2);
    DropFront(a, g + s2);
    DropFront(a + g, s2);
    DropFront(a + g + t, s3);
    DropFront(a + g + t + c, s4);
  }

  lemma DropFront(a: seq<byte>, b: seq<byte>)
    ensures (a + b)[|a|..] == b
  {}

  lemma ParseMag(r: Record, f: Frame, more: seq<byte>)
    requires r.Mag? && f.kind == REC_MAG && f.monoNs == r.monoNs && ValidBit(f.flags) == r.valid
    ensures Parse(f, Payload(r) + more) == r
  {
    hide Put64, Get64, Put3, Get3, ValidBit;
    var b := Payload(r) + more;
    assert b == Put3(r.field) + (Put64(r.wallNs) + more);
    assert b[12..] == Put64(r.wallNs) + more;
    RoundTrip3(r.field, Put64(r.wallNs) + more);
    Get64Prefix(Put64(r.wallNs), more);
    RoundTrip64(r.wallNs);
  }

  /** A stored payload parses back to its record, whatever a later writer appends to it. */
  lemma ParsePayload(r: Record, f: Frame, more: seq<byte>)
    requires f.kind == KindOf(r) && f.monoNs == r.monoNs && (r.Mag? ==> ValidBit(f.flags) == r.valid)
    ensures Parse(f, Payload(r) + more) == r
  {
    hide ValidBit, Put32, Get32;
    match r
    case Imu(_, _, _, _, _, _) => ParseImu(r, f, more);
    case Mag(_, _, _, _) => ParseMag(r, f, more);
    case Mark(_, c) => LoadStored(c, more);
  }

  lemma LoadStored(w: bv32, more: seq<byte>)
    ensures Get32(Put32(w) + more) == w
  {
    hide Put32, Get32;
    Get32Prefix(Put32(w), more);
    RoundTrip32(w);
  }

  // ---------- reading one record ----------

  datatype Step = Deliver(record: Record, rest: seq<byte>) | Skip(rest: seq<byte>) | Ended | Damaged

  function Min(kind: byte, crc: bool): nat {
    KnownSize(kind) + if crc then 4 else 0
  }

  /** What one turn of cap_reader_next makes of the bytes ahead of it. */
  function StepOf(promised: bool, s: seq<byte>): Step {
    if |s| < FRAME_SIZE then Ended
    else
      var f := FrameDecode(s);
      var len := LenOf(f);
      if !Sealed(f) && promised then Damaged
      else if len < Min(f.kind, Sealed(f)) then Ended
      else if Sealed(f) then SealedStep(f, len, s)
      else PlainStep(f, len, s)
  }

  /** A record whose last four bytes are its CRC. */
  function SealedStep(f: Frame, len: nat, s: seq<byte>): Step
    requires |s| >= FRAME_SIZE && len >= KnownSize(f.kind) + 4
  {
    if |s| < FRAME_SIZE + len then Ended
    else if !Codeword(s[..FRAME_SIZE + len]) then Damaged
    else Taken(f, s[FRAME_SIZE..], s[FRAME_SIZE + len..])
  }

  /** A record of a file written before CRCs. */
  function PlainStep(f: Frame, len: nat, s: seq<byte>): Step
    requires |s| >= FRAME_SIZE
  {
    if |s| < FRAME_SIZE + KnownSize(f.kind) then Ended
    else Taken(f, s[FRAME_SIZE..], Past(s, FRAME_SIZE + len))
  }

  function Taken(f: Frame, payload: seq<byte>, rest: seq<byte>): Step
    requires |payload| >= KnownSize(f.kind)
  {
    if Known(f.kind) then Deliver(Parse(f, payload[..KnownSize(f.kind)]), rest) else Skip(rest)
  }

  /** Seeking past the end leaves nothing to read. */
  function Past(s: seq<byte>, n: nat): seq<byte> {
    if n <= |s| then s[n..] else []
  }

  datatype Status = Eof | CrcError

  /** Everything a reader delivers from here to the end, and how it ends. */
  function ReadAll(promised: bool, s: seq<byte>): (seq<Record>, Status)
    decreases |s|
  {
    match StepOf(promised, s)
    case Ended => ([], Eof)
    case Damaged => ([], CrcError)
    case Skip(rest) => if |rest| < |s| then ReadAll(promised, rest) else ([], Eof)
    case Deliver(r, rest) =>
      if |rest| < |s| then
        var more := ReadAll(promised, rest);
        ([r] + more.0, more.1)
      else ([r], Eof)
  }

  lemma StepAdvances(promised: bool, s: seq<byte>)
    ensures StepOf(promised, s).Skip? ==> |StepOf(promised, s).rest| < |s|
    ensures StepOf(promised, s).Deliver? ==> |StepOf(promised, s).rest| < |s|
  {
    hide Codeword, Parse, FrameDecode;
  }
}
